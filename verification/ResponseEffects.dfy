/** What a backend response does to its session, read off its headers: which cookies are
    stored and which deleted, when a session is created, when the key is swapped, whom it
    binds and what it grants, and what passes through untouched. */
module ResponseEffects {
  import opened Stores
  import opened Sessions
  import opened Manager
  import opened MaxAge
  import opened Outcomes
  import opened Response
  import Labels
  import Authz

  // ---- what a response says ------------------------------------------------------------------------

  /** The values set for a name, unless the name is declared as a trailer. */
  function Heard(header: Headers, n: Name): seq<string> { if n in header.declared then [] else Values(header, n) }

  /** The cookie lines of a response. */
  function Lines(site: Site, header: Headers): seq<string> { if site.revoke == SET_COOKIE then [] else Heard(header, SET_COOKIE) }

  /** The values of a control that is read after the cookie lines are taken out. */
  function Control(header: Headers, n: Name): seq<string> { if n == SET_COOKIE then [] else Heard(header, n) }

  /** The four controls have names of their own. */
  predicate Distinct(site: Site) {
    && site.identity != site.rotate && site.identity != site.revoke && site.identity != site.labels
    && site.rotate != site.revoke && site.rotate != site.labels && site.revoke != site.labels
  }

  const YES := {"1", "t", "T", "TRUE", "true", "True"}

  predicate SaysYes(values: seq<string>) { values != [] && values[0] in YES }

  predicate SomeYes(values: seq<string>) { exists v <- values :: v in YES }

  function Owner(values: seq<string>): Option<int> { if values == [] then None else ParseOwner(values[0]) }

  /** A cookie line the site stores. */
  predicate Kept(site: Site, raw: string) { site.parse(raw).Some? && site.decide(site.parse(raw).value.name) == Keep }

  function NameOf(site: Site, raw: string): string
    requires Kept(site, raw)
  {
    site.parse(raw).value.name
  }

  /** The line ends its cookie: its last Max-Age is not above zero, or it has none and its
      expiry date has come. */
  predicate Ends(site: Site, raw: string, now: int)
    requires Kept(site, raw)
  {
    var age, expires := LastMaxAge(Split(raw, ';')[1..]), site.parse(raw).value.expires;
    if age.Some? then age.value <= 0 else expires.Some? && expires.value <= now
  }

  predicate StoresAt(site: Site, env: Env, lines: seq<string>, i: nat) {
    i < |lines| && Kept(site, lines[i]) && !Ends(site, lines[i], env.clock(i))
  }

  /** The last line about its cookie. */
  predicate IsLastLine(site: Site, lines: seq<string>, i: nat) {
    && i < |lines| && Kept(site, lines[i])
    && forall j :: i < j < |lines| && Kept(site, lines[j]) ==> NameOf(site, lines[j]) != NameOf(site, lines[i])
  }

  function Asking(site: Site, header: Headers, writes: seq<CookieWrite>): Ask {
    Ask(Owner(Control(header, site.identity)), LabelGrant(Control(header, site.labels)),
        site.rotateEnabled && SaysYes(Control(header, site.rotate)), true, writes)
  }

  /** The headers the response path works on. */
  function Opened(site: Site, header: Headers): Headers { Del(Stripped(site, header), site.revoke) }

  lemma AsksAsHeard(site: Site, header: Headers, writes: seq<CookieWrite>)
    requires Distinct(site)
    ensures Asked(site, Del(Opened(site, header), SET_COOKIE), writes) == Asking(site, header, writes)
  {
    var h := Del(Opened(site, header), SET_COOKIE);
    assert Values(h, site.identity) == Control(header, site.identity);
    assert Values(Del(h, site.identity), site.rotate) == Control(header, site.rotate);
    assert Values(Del(Del(h, site.identity), site.rotate), site.labels) == Control(header, site.labels);
    assert ParseOwner("").None?;
  }

  lemma LinesHeard(site: Site, header: Headers)
    ensures Values(Opened(site, header), SET_COOKIE) == Lines(site, header)
  {
  }

  // ---- the cookie loop --------------------------------------------------------------------------------

  function Write(site: Site, raw: string, now: int): CookieWrite
    requires Kept(site, raw)
  {
    CookieWrite(NameOf(site, raw), if Ends(site, raw, now) then "" else site.parse(raw).value.value, Ends(site, raw, now))
  }

  /** One line: a stored cookie makes sure of a session, and is written if there is one. */
  lemma SiftOneMeans(site: Site, cfg: Config, env: Env, s: Sift, raw: string, now: int)
    requires !SiftOne(site, cfg, env, s, raw, now).failed
    ensures var t := SiftOne(site, cfg, env, s, raw, now);
            && (t.live.Some? <==> s.live.Some? || (Kept(site, raw) && !Ends(site, raw, now)))
            && t.writes == s.writes + (if Kept(site, raw) && t.live.Some? then [Write(site, raw, now)] else [])
            && (s.live.Some? ==> t.live == s.live) && (t.live == s.live ==> t.steps == s.steps)
  {
  }

  /** Some line stores a cookie. */
  predicate AnyStored(site: Site, env: Env, lines: seq<string>) { exists j: nat | j < |lines| :: StoresAt(site, env, lines, j) }

  lemma AnyStoredIff(site: Site, env: Env, lines: seq<string>)
    requires lines != []
    ensures var n := |lines| - 1; AnyStored(site, env, lines) <==> AnyStored(site, env, lines[..n]) || StoresAt(site, env, lines, n)
  {
    var n := |lines| - 1;
    assert forall j: nat | j < n :: StoresAt(site, env, lines, j) == StoresAt(site, env, lines[..n], j);
  }

  /** A session is there from the first line on that stores a cookie, and never before. */
  lemma {:induction false} SiftBegins(site: Site, cfg: Config, env: Env, s: Sift, lines: seq<string>)
    requires !SiftAll(site, cfg, env, s, lines).failed
    ensures var t := SiftAll(site, cfg, env, s, lines);
            && (t.live.Some? <==> s.live.Some? || AnyStored(site, env, lines))
            && (t.live.None? ==> t.writes == s.writes)
            && (s.live.Some? ==> t.live == s.live) && (t.live == s.live ==> t.steps == s.steps)
  {
    if lines != [] {
      var n := |lines| - 1;
      SiftBegins(site, cfg, env, s, lines[..n]);
      SiftOneMeans(site, cfg, env, SiftAll(site, cfg, env, s, lines[..n]), lines[n], env.clock(n));
      AnyStoredIff(site, env, lines);
    }
  }

  /** The session is there by the time of line `i`. */
  predicate LiveBy(site: Site, env: Env, live: Option<Handle>, lines: seq<string>, i: nat)
    requires i < |lines|
  {
    live.Some? || AnyStored(site, env, lines[..i + 1])
  }

  /** The last line about a cookie is the last write of it. */
  lemma {:induction false} SiftWrites(site: Site, cfg: Config, env: Env, s: Sift, lines: seq<string>, i: nat) returns (k: nat)
    requires !SiftAll(site, cfg, env, s, lines).failed && IsLastLine(site, lines, i) && LiveBy(site, env, s.live, lines, i)
    ensures var t := SiftAll(site, cfg, env, s, lines); IsLastWrite(t.writes, k) && t.writes[k] == Write(site, lines[i], env.clock(i))
  {
    var n := |lines| - 1;
    var t := SiftAll(site, cfg, env, s, lines[..n]);
    SiftOneMeans(site, cfg, env, t, lines[n], env.clock(n));
    if i == n {
      assert lines[..n + 1] == lines;
      SiftBegins(site, cfg, env, s, lines);
      k := |t.writes|;
    } else {
      assert lines[..n][..i + 1] == lines[..i + 1];
      k := SiftWrites(site, cfg, env, s, lines[..n], i);
    }
  }

  predicate AnyAbout(site: Site, lines: seq<string>, name: string) {
    exists j: nat | j < |lines| :: Kept(site, lines[j]) && NameOf(site, lines[j]) == name
  }

  /** A cookie no line is about is not written. */
  lemma {:induction false} SiftWritesNoOther(site: Site, cfg: Config, env: Env, s: Sift, lines: seq<string>, name: string)
    requires !WritesName(s.writes, name) && !AnyAbout(site, lines, name)
    ensures !WritesName(SiftAll(site, cfg, env, s, lines).writes, name)
  {
    if lines != [] {
      var n := |lines| - 1;
      assert forall j: nat | j < n :: lines[..n][j] == lines[j];
      SiftWritesNoOther(site, cfg, env, s, lines[..n], name);
    }
  }

  /** Something is written exactly if some line is about a stored cookie of a session. */
  lemma {:induction false} SiftWritesAny(site: Site, cfg: Config, env: Env, s: Sift, lines: seq<string>)
    requires !SiftAll(site, cfg, env, s, lines).failed && s.live.Some?
    ensures SiftAll(site, cfg, env, s, lines).writes == s.writes <==> forall raw <- lines :: !Kept(site, raw)
  {
    if lines != [] {
      var n := |lines| - 1;
      assert lines == lines[..n] + [lines[n]];
      SiftWritesAny(site, cfg, env, s, lines[..n]);
      SiftBegins(site, cfg, env, s, lines[..n]);
      SiftGrows(site, cfg, env, s, lines[..n]);
      SiftOneMeans(site, cfg, env, SiftAll(site, cfg, env, s, lines[..n]), lines[n], env.clock(n));
    }
  }

  lemma {:induction false} SiftGrows(site: Site, cfg: Config, env: Env, s: Sift, lines: seq<string>)
    ensures s.writes <= SiftAll(site, cfg, env, s, lines).writes
  {
    if lines != [] { SiftGrows(site, cfg, env, s, lines[..|lines| - 1]); }
  }

  // ---- a response that succeeds -------------------------------------------------------------------------

  /** Processing on its own: the request's earlier steps make no difference. */
  function Handled(site: Site, cfg: Config, env: Env, live: Option<Handle>, hadCookie: bool, resolveFailed: bool, header: Headers): Processed {
    Process(site, cfg, env, live, hadCookie, resolveFailed, header, [])
  }

  function Sifted(site: Site, cfg: Config, env: Env, live: Option<Handle>, header: Headers): Sift {
    SiftAll(site, cfg, env, Sift(Bare(site, Del(Opened(site, header), SET_COOKIE)), [], live, [], false), Lines(site, header))
  }

  /** The response binds an owner or grants a label. */
  predicate Elevates(ask: Ask) { ask.owner.Some? || (ask.labels.Some? && ask.labels.value != []) }

  predicate Created(cfg: Config, env: Env, l: Sift) {
    var b := Beginning(cfg, env.born, env.sid, env.key, env.put, env.bind); !b.failed && l.live == b.live && b.live.Some? && l.steps == b.steps
  }

  /** The sessions a sift ends with: the one it began with, or a new one, or none. */
  lemma {:induction false} SiftCreates(site: Site, cfg: Config, env: Env, s: Sift, lines: seq<string>)
    requires !SiftAll(site, cfg, env, s, lines).failed && s.live.None? && s.steps == []
    ensures var t := SiftAll(site, cfg, env, s, lines); t.live.Some? ==> Created(cfg, env, t)
  {
    if lines != [] {
      SiftCreates(site, cfg, env, s, lines[..|lines| - 1]);
      SiftBegins(site, cfg, env, s, lines[..|lines| - 1]);
    }
  }

  /** How a response without revocation succeeds: with the session it began with, a new one
      or none, and the one transition it makes. */
  predicate Came(cfg: Config, env: Env, live: Option<Handle>, ask: Ask, l: Sift, p: Processed) {
    && (live.Some? ==> l.live == live && l.steps == [])
    && (live.None? && l.live.Some? ==> Created(cfg, env, l))
    && (l.live.None? ==> p.live.None? && p.steps == [])
    && (l.live.Some? ==>
          var a := Tried(cfg, l.live.value, ask, env.now, env.mint, env.read, env.commit);
          a.result == Done && p.live == Some(a.handle) && p.steps == l.steps + a.steps)
  }

  lemma Attempted(site: Site, cfg: Config, env: Env, live: Option<Handle>, hadCookie: bool, resolveFailed: bool, header: Headers) returns (l: Sift)
    requires Distinct(site)
    requires var p := Handled(site, cfg, env, live, hadCookie, resolveFailed, header); !p.failed && !p.revoke
    ensures var p, s := Handled(site, cfg, env, live, hadCookie, resolveFailed, header), Sifted(site, cfg, env, live, header);
            var ask := Asking(site, header, s.writes);
            !s.failed && (l.live.Some? <==> s.live.Some? || Elevates(ask)) && Came(cfg, env, live, ask, l, p)
  {
    var h := Opened(site, header);
    LinesHeard(site, header);
    var s0 := Sift(Bare(site, Del(h, SET_COOKIE)), [], live, [], false);
    var s := Sifted(site, cfg, env, live, header);
    AsksAsHeard(site, header, s.writes);
    var ask := Asking(site, header, s.writes);
    assert Respond(site, cfg, env, live, hadCookie, false, h, []) == if s.failed then Reply(s.header, s.live, s.steps, true) else Committing(site, cfg, env, s, ask);
    SiftBegins(site, cfg, env, s0, Lines(site, header));
    if live.None? { SiftCreates(site, cfg, env, s0, Lines(site, header)); }
    l := if s.live.None? && Elevates(ask) then WithLive(cfg, env, s) else s;
  }

  function LastStore(p: Processed): Store
    requires p.steps != []
  {
    p.steps[|p.steps| - 1].after
  }

  // ---- cookies --------------------------------------------------------------------------------------------

  /** Of the last line about a stored cookie: once the response succeeded, the session's
      store row and the handle hold the line's value and its digest, or neither if the
      line ends the cookie, which its last Max-Age decides, or else its expiry date. */
  lemma CookiesAreStored(site: Site, cfg: Config, env: Env, live: Option<Handle>, hadCookie: bool, resolveFailed: bool, header: Headers, i: nat)
    requires Distinct(site)
    requires var p := Handled(site, cfg, env, live, hadCookie, resolveFailed, header); !p.failed && !p.revoke
    requires IsLastLine(site, Lines(site, header), i) && LiveBy(site, env, live, Lines(site, header), i)
    ensures var p, raw := Handled(site, cfg, env, live, hadCookie, resolveFailed, header), Lines(site, header)[i];
            && p.live.Some? && p.steps != [] && (live.Some? ==> p.live.value.sid == live.value.sid)
            && var n, v, ends := NameOf(site, raw), site.parse(raw).value.value, Ends(site, raw, env.clock(i));
               && CookieIn(LastStore(p), p.live.value.sid, n) == Lookup(p.live.value.cookies, n) == (if ends then None else Some(v))
               && DigestIn(LastStore(p), p.live.value.sid, n) == Lookup(p.live.value.shas, n) == (if ends then None else Some(cfg.hash(v)))
  {
    var l := Attempted(site, cfg, env, live, hadCookie, resolveFailed, header);
    var s0 := Sift(Bare(site, Del(Opened(site, header), SET_COOKIE)), [], live, [], false);
    var lines, s := Lines(site, header), Sifted(site, cfg, env, live, header);
    AnyStoredBy(site, env, lines, i);
    SiftBegins(site, cfg, env, s0, lines);
    var k := SiftWrites(site, cfg, env, s0, lines, i);
    WritesAreStored(cfg, env, live, Asking(site, header, s.writes), l, Handled(site, cfg, env, live, hadCookie, resolveFailed, header), k);
  }

  lemma WritesAreStored(cfg: Config, env: Env, live: Option<Handle>, ask: Ask, l: Sift, p: Processed, k: nat)
    requires Came(cfg, env, live, ask, l, p) && l.live.Some? && IsLastWrite(ask.cookies, k)
    ensures var w := ask.cookies[k];
            && p.live.Some? && p.steps != [] && p.live.value.sid == l.live.value.sid
            && CookieIn(LastStore(p), p.live.value.sid, w.name) == Lookup(p.live.value.cookies, w.name) == (if w.delete then None else Some(w.value))
            && DigestIn(LastStore(p), p.live.value.sid, w.name) == Lookup(p.live.value.shas, w.name) == (if w.delete then None else Some(cfg.hash(w.value)))
  {
    CookiesWritten(cfg, l.live.value, ask, env.now, env.mint, env.read, env.commit, k);
  }

  lemma AnyStoredBy(site: Site, env: Env, lines: seq<string>, i: nat)
    requires i < |lines|
    ensures AnyStored(site, env, lines[..i + 1]) ==> AnyStored(site, env, lines)
  {
    assert forall j: nat | j < i + 1 :: lines[..i + 1][j] == lines[j];
    if AnyStored(site, env, lines[..i + 1]) {
      var j: nat :| j < i + 1 && StoresAt(site, env, lines[..i + 1], j);
      assert StoresAt(site, env, lines, j);
    }
  }

  /** No step touches a cookie no line is about, or a cookie of another session. */
  lemma OtherCookiesKept(site: Site, cfg: Config, env: Env, live: Option<Handle>, hadCookie: bool, resolveFailed: bool, header: Headers, id: Id, n: string)
    requires Distinct(site)
    requires var p := Handled(site, cfg, env, live, hadCookie, resolveFailed, header); !p.failed && !p.revoke
    requires var p := Handled(site, cfg, env, live, hadCookie, resolveFailed, header);
             p.live.Some? && p.live.value.sid == id ==> !AnyAbout(site, Lines(site, header), n)
    ensures forall o <- Handled(site, cfg, env, live, hadCookie, resolveFailed, header).steps :: KeepsCookie(o, id, n)
  {
    var l := Attempted(site, cfg, env, live, hadCookie, resolveFailed, header);
    if l.live.Some? {
      var s := Sifted(site, cfg, env, live, header);
      if !AnyAbout(site, Lines(site, header), n) {
        SiftWritesNoOther(site, cfg, env, Sift(Bare(site, Del(Opened(site, header), SET_COOKIE)), [], live, [], false), Lines(site, header), n);
      }
      UnwrittenIsKept(cfg, env, live, Asking(site, header, s.writes), l, Handled(site, cfg, env, live, hadCookie, resolveFailed, header), id, n);
    }
  }

  lemma UnwrittenIsKept(cfg: Config, env: Env, live: Option<Handle>, ask: Ask, l: Sift, p: Processed, id: Id, n: string)
    requires Came(cfg, env, live, ask, l, p) && l.live.Some? && (p.live.Some? && p.live.value.sid == id ==> !WritesName(ask.cookies, n))
    ensures forall o <- p.steps :: KeepsCookie(o, id, n)
  {
    CookiesKept(cfg, l.live.value, ask, env.now, env.mint, env.read, env.commit, id, n);
    assert forall o <- l.steps :: KeepsCookie(o, id, n);
  }

  // ---- when a session is created -----------------------------------------------------------------------------

  lemma {:induction false} GrantableHas(labels: seq<string>, l: string)
    ensures l in Grantable(labels) <==> l in labels && l != Authz.ANONYMOUS
  {
    if labels != [] {
      assert labels == labels[..|labels| - 1] + [labels[|labels| - 1]];
      GrantableHas(labels[..|labels| - 1], l);
    }
  }

  /** The labels the response names, in all values of its header, without the reserved one. */
  function LabelsNamed(values: seq<string>): set<string> { (set v, l | v in values && l in Labels.SplitLabels(v) :: l) - {Authz.ANONYMOUS} }

  /** Joining the values keeps their labels apart. */
  lemma {:induction false} JoinedNames(values: seq<string>, l: string)
    ensures l in Labels.SplitLabels(JoinCommas(values)) <==> exists v <- values :: l in Labels.SplitLabels(v)
  {
    if |values| == 1 {
      assert values == [values[0]];
    } else if values != [] {
      assert values == [values[0]] + values[1..];
      JoinedNames(values[1..], l);
      Labels.SplitsAtSeparators(values[0], ',', JoinCommas(values[1..]));
    }
  }

  lemma GrantsAsNamed(values: seq<string>)
    ensures LabelGrant(values).Some? <==> values != []
    ensures LabelGrant(values).Some? ==> (set l | l in LabelGrant(values).value) == LabelsNamed(values)
    ensures LabelGrant(values).Some? && LabelGrant(values).value != [] <==> LabelsNamed(values) != {}
  {
    var all := Labels.SplitLabels(JoinCommas(values));
    forall l ensures l in Grantable(all) <==> l in LabelsNamed(values) {
      GrantableHas(all, l);
      JoinedNames(values, l);
    }
    if Grantable(all) != [] { assert Grantable(all)[0] in LabelsNamed(values); }
    if LabelsNamed(values) != {} { var l :| l in LabelsNamed(values); assert l in Grantable(all); }
  }

  /** The row of a session just created: both timeouts in whole seconds, nobody's, without
      labels, used and rotated at its creation. */
  function FreshRow(cfg: Config, born: int): Session {
    Session(born, born, cfg.inactive / SECOND, cfg.final / SECOND, 0, born, "")
  }

  /** A request without a session gets one exactly if its response stores a cookie, binds an
      owner or grants a label; otherwise nothing happens in the store. */
  lemma SessionIffNeeded(site: Site, cfg: Config, env: Env, hadCookie: bool, resolveFailed: bool, header: Headers)
    requires Distinct(site)
    requires var p := Handled(site, cfg, env, None, hadCookie, resolveFailed, header); !p.failed && !p.revoke
    ensures var p := Handled(site, cfg, env, None, hadCookie, resolveFailed, header);
            && (p.live.Some? <==>
                  || AnyStored(site, env, Lines(site, header))
                  || Owner(Control(header, site.identity)).Some?
                  || LabelsNamed(Control(header, site.labels)) != {})
            && (p.live.None? ==> p.steps == [])
            && (p.live.Some? ==>
                  && env.sid == Some(p.live.value.sid) && env.key.Some? && |p.steps| >= 2
                  && p.steps[0] == Own(env.put.seen, PutSession(env.put.seen, p.live.value.sid, FreshRow(cfg, env.born)))
                  && p.steps[1].before == env.bind.seen && Maps(p.steps[1].after, env.key.value, p.live.value.sid))
  {
    var l := Attempted(site, cfg, env, None, hadCookie, resolveFailed, header);
    SiftBegins(site, cfg, env, Sift(Bare(site, Del(Opened(site, header), SET_COOKIE)), [], None, [], false), Lines(site, header));
    GrantsAsNamed(Control(header, site.labels));
    CreationSteps(cfg, env, Asking(site, header, Sifted(site, cfg, env, None, header).writes), l, Handled(site, cfg, env, None, hadCookie, resolveFailed, header));
  }

  lemma CreationSteps(cfg: Config, env: Env, ask: Ask, l: Sift, p: Processed)
    requires Came(cfg, env, None, ask, l, p)
    ensures l.live.Some? <==> p.live.Some?
    ensures p.live.Some? ==>
              && env.sid == Some(p.live.value.sid) && env.key.Some? && |p.steps| >= 2
              && p.steps[0] == Own(env.put.seen, PutSession(env.put.seen, p.live.value.sid, FreshRow(cfg, env.born)))
              && p.steps[1].before == env.bind.seen && Maps(p.steps[1].after, env.key.value, p.live.value.sid)
  {
  }

  // ---- rotation, owner and labels -------------------------------------------------------------------------------

  /** On an existing session: a response that succeeds swaps the key, and announces the new
      one, exactly when its rotate header says so, the interval is over, its grant differs,
      or its owner does and login rotates; then the old key is retired. */
  lemma KeySwappedIff(site: Site, cfg: Config, env: Env, live: Option<Handle>, hadCookie: bool, resolveFailed: bool, header: Headers)
    requires Distinct(site) && live.Some?
    requires var p := Handled(site, cfg, env, live, hadCookie, resolveFailed, header); !p.failed && !p.revoke
    ensures live.value.sid in env.read.seen.sessions
    ensures var p, h := Handled(site, cfg, env, live, hadCookie, resolveFailed, header), live.value;
            && p.live.Some?
            && if Rekeys(cfg, h, Asking(site, header, []), RowRead(h, env.read), env.now)
               then
                 && |p.steps| == 2 && KeySwapped(p.steps[1], h, p.live.value, env.mint) && ClockRestarts(p.steps[1], h.sid, env.now)
                 && site.proxyCookie(p.live.value.newKey) in Values(p.header, SET_COOKIE)
               else forall o <- p.steps :: SameKeys(o, h, p.live.value)
  {
    var l := Attempted(site, cfg, env, live, hadCookie, resolveFailed, header);
    var p, s := Handled(site, cfg, env, live, hadCookie, resolveFailed, header), Sifted(site, cfg, env, live, header);
    SwapAsAsked(cfg, env, live, Asking(site, header, s.writes), l, p);
    CookiesAreExact(site, cfg, env, live, hadCookie, resolveFailed, header);
    if p.live.value.rewrite {
      var shown := Values(p.header, SET_COOKIE);
      assert shown[|shown| - 1] == site.proxyCookie(p.live.value.newKey);
    }
  }

  /** The time of the last rotation is `now`, or a later one it already had. */
  predicate ClockRestarts(o: Own, sid: Id, now: int) {
    && sid in o.before.sessions && sid in o.after.sessions
    && o.after.sessions[sid].lastRotation == Max(o.before.sessions[sid].lastRotation, now)
  }

  lemma SwapAsAsked(cfg: Config, env: Env, live: Option<Handle>, ask: Ask, l: Sift, p: Processed)
    requires Came(cfg, env, live, ask, l, p) && live.Some?
    ensures live.value.sid in env.read.seen.sessions && p.live.Some?
    ensures if Rekeys(cfg, live.value, ask.(cookies := []), RowRead(live.value, env.read), env.now)
            then |p.steps| == 2 && KeySwapped(p.steps[1], live.value, p.live.value, env.mint) && ClockRestarts(p.steps[1], live.value.sid, env.now)
            else forall o <- p.steps :: SameKeys(o, live.value, p.live.value)
  {
    RowIsExact(cfg, live.value, ask, env.now, env.mint, env.read, env.commit);
    RotatesIff(cfg, live.value, ask, env.now, env.mint, env.read, env.commit);
    assert p.steps == Tried(cfg, live.value, ask, env.now, env.mint, env.read, env.commit).steps;
  }

  /** Nobody else changed the session's owner or labels between read and commit. */
  predicate Undisputed(env: Env, sid: Id) {
    sid in env.read.seen.sessions && sid in env.commit.seen.sessions ==>
      var x, y := env.read.seen.sessions[sid], env.commit.seen.sessions[sid]; x.owner == y.owner && x.labels == y.labels
  }

  /** Whom the response binds and what it grants is then in the store: the owner named, and
      exactly the labels named without the reserved one; what it does not mention stays. */
  lemma ControlsAreStored(site: Site, cfg: Config, env: Env, live: Option<Handle>, hadCookie: bool, resolveFailed: bool, header: Headers)
    requires Distinct(site)
    requires var p := Handled(site, cfg, env, live, hadCookie, resolveFailed, header);
             !p.failed && !p.revoke && p.live.Some? && Undisputed(env, p.live.value.sid)
    ensures var p := Handled(site, cfg, env, live, hadCookie, resolveFailed, header);
            var sid, owner, grant := p.live.value.sid, Owner(Control(header, site.identity)), Control(header, site.labels);
            && sid in env.read.seen.sessions && p.steps != [] && sid in LastStore(p).sessions
            && var x, y := env.read.seen.sessions[sid], LastStore(p).sessions[sid];
               && y.owner == (if owner.Some? then owner.value else x.owner)
               && (if grant == [] then y.labels == x.labels else Labels.Elements(Labels.Fields(y.labels)) == LabelsNamed(grant))
  {
    var l := Attempted(site, cfg, env, live, hadCookie, resolveFailed, header);
    var p, s := Handled(site, cfg, env, live, hadCookie, resolveFailed, header), Sifted(site, cfg, env, live, header);
    AskedIsStored(cfg, env, live, Asking(site, header, s.writes), l, p);
    GrantReadsBack(Control(header, site.labels));
  }

  lemma AskedIsStored(cfg: Config, env: Env, live: Option<Handle>, ask: Ask, l: Sift, p: Processed)
    requires Came(cfg, env, live, ask, l, p) && p.live.Some? && Undisputed(env, p.live.value.sid)
    ensures var sid := p.live.value.sid;
            && sid in env.read.seen.sessions && p.steps != [] && sid in LastStore(p).sessions
            && var x, y := env.read.seen.sessions[sid], LastStore(p).sessions[sid];
               && y.owner == (if ask.owner.Some? then ask.owner.value else x.owner)
               && y.labels == (if ask.labels.Some? then Labels.Normalize(ask.labels.value) else x.labels)
  {
    StoredAsAsked(cfg, l.live.value, ask, env.now, env.mint, env.read, env.commit);
  }

  lemma GrantReadsBack(values: seq<string>)
    ensures var grant := LabelGrant(values);
            grant.Some? ==> Labels.Elements(Labels.Fields(Labels.Normalize(grant.value))) == LabelsNamed(values)
  {
    var all := Labels.SplitLabels(JoinCommas(values));
    Labels.SplitsAreTokens(JoinCommas(values));
    forall l | l in Grantable(all) ensures l in all { GrantableHas(all, l); }
    Labels.NormalizedIsStored(Grantable(all));
    GrantsAsNamed(values);
  }

  // ---- what passes through --------------------------------------------------------------------------------------

  /** Filtering is done name by name, line by line and label by label, in order. */
  lemma {:induction false} UnmanagedIsFilter(managed: set<Name>, a: seq<Name>, b: seq<Name>)
    ensures Unmanaged(managed, a + b) == Unmanaged(managed, a) + Unmanaged(managed, b)
    ensures |a| == 1 ==> Unmanaged(managed, a) == if a[0] in managed then [] else a
  {
    if b == [] {
      assert a + b == a;
    } else {
      assert (a + b)[..|a + b| - 1] == a + b[..|b| - 1];
      UnmanagedIsFilter(managed, a, b[..|b| - 1]);
    }
  }

  lemma {:induction false} ForwardedIsFilter(site: Site, a: seq<string>, b: seq<string>)
    ensures Forwarded(site, a + b) == Forwarded(site, a) + Forwarded(site, b)
    ensures |a| == 1 ==> Forwarded(site, a) == if site.parse(a[0]).Some? && site.decide(site.parse(a[0]).value.name) == Forward then a else []
  {
    if b == [] {
      assert a + b == a;
    } else {
      assert (a + b)[..|a + b| - 1] == a + b[..|b| - 1];
      ForwardedIsFilter(site, a, b[..|b| - 1]);
    }
  }

  predicate SameField(a: Headers, b: Headers, n: Name) {
    && (n in a.fields <==> n in b.fields) && (n in a.fields ==> a.fields[n] == b.fields[n])
    && (n in a.late <==> n in b.late) && (n in a.late ==> a.late[n] == b.late[n])
  }

  lemma {:induction false} SiftPasses(site: Site, cfg: Config, env: Env, s: Sift, lines: seq<string>, n: Name)
    requires n != SET_COOKIE
    ensures SameField(s.header, SiftAll(site, cfg, env, s, lines).header, n)
  {
    if lines != [] { SiftPasses(site, cfg, env, s, lines[..|lines| - 1], n); }
  }

  /** Whatever a response asks for and whatever fails, a header or trailer that is not
      managed leaves as the backend set it, and unmanaged trailers stay declared. */
  lemma OthersPassThrough(site: Site, cfg: Config, env: Env, live: Option<Handle>, hadCookie: bool, resolveFailed: bool, header: Headers, n: Name)
    requires n !in Managed(site)
    ensures var p := Handled(site, cfg, env, live, hadCookie, resolveFailed, header);
            SameField(header, p.header, n) && p.header.declared == Unmanaged(Managed(site), header.declared)
  {
    var h := Opened(site, header);
    var revoke := WantsRevoke(site, Values(Stripped(site, header), site.revoke));
    RespondPasses(site, cfg, env, live, hadCookie, revoke, h, n);
    RespondTrailers(site, cfg, env, live, hadCookie, revoke, h);
    assert SameField(header, h, n);
  }

  lemma RespondPasses(site: Site, cfg: Config, env: Env, live: Option<Handle>, hadCookie: bool, revoke: bool, header: Headers, n: Name)
    requires n !in Managed(site)
    ensures SameField(header, Respond(site, cfg, env, live, hadCookie, revoke, header, []).header, n)
  {
    var bare := Bare(site, Del(header, SET_COOKIE));
    assert SameField(header, bare, n);
    if !revoke {
      SiftPasses(site, cfg, env, Sift(bare, [], live, [], false), Values(header, SET_COOKIE), n);
      var s := SiftAll(site, cfg, env, Sift(bare, [], live, [], false), Values(header, SET_COOKIE));
      CommittingPasses(site, cfg, env, s, Asked(site, Del(header, SET_COOKIE), s.writes), n);
    }
  }

  lemma CommittingPasses(site: Site, cfg: Config, env: Env, s: Sift, ask: Ask, n: Name)
    requires n != SET_COOKIE
    ensures SameField(s.header, Committing(site, cfg, env, s, ask).header, n)
  {
  }

  /** Discarding keeps all of that as well. */
  lemma DiscardKeepsOthers(site: Site, h: Headers, n: Name)
    requires n !in Managed(site)
    ensures SameField(h, Discarded(site, h), n) && Discarded(site, h).declared == Unmanaged(Managed(site), h.declared)
  {
  }

  // ---- success and failure ------------------------------------------------------------------------------------------

  /** A revocation is asked for exactly if some value of its header says yes. */
  lemma RevokesIff(site: Site, cfg: Config, env: Env, live: Option<Handle>, hadCookie: bool, resolveFailed: bool, header: Headers)
    ensures Handled(site, cfg, env, live, hadCookie, resolveFailed, header).revoke <==> site.revokeEnabled && SomeYes(Heard(header, site.revoke))
  {
    var values := Values(Stripped(site, header), site.revoke);
    assert values == Heard(header, site.revoke);
    assert forall v <- values :: ParseBool(v) == Some(true) <==> v in YES;
  }

  predicate CanCreate(env: Env) {
    env.sid.Some? && env.key.Some? && !env.put.fails && !env.bind.fails && env.sid.value in env.bind.seen.sessions
  }

  lemma {:induction false} SiftFailsIff(site: Site, cfg: Config, env: Env, s: Sift, lines: seq<string>)
    requires !s.failed
    ensures SiftAll(site, cfg, env, s, lines).failed <==> s.live.None? && AnyStored(site, env, lines) && !CanCreate(env)
  {
    if lines != [] {
      var n := |lines| - 1;
      SiftFailsIff(site, cfg, env, s, lines[..n]);
      AnyStoredIff(site, env, lines);
      if !SiftAll(site, cfg, env, s, lines[..n]).failed { SiftBegins(site, cfg, env, s, lines[..n]); }
    }
  }

  /** The transition goes through: the session is read, and there is nothing to do or the
      commit finds the key in place. */
  predicate Goes(cfg: Config, env: Env, h: Handle, ask: Ask, silent: bool) {
    && !env.read.fails && h.sid in env.read.seen.sessions
    && var x := RowRead(h, env.read);
       (silent && Quiet(cfg, h, ask.(cookies := []), x, env.now)) || Commits(h, env.mint, env.commit, Rekeys(cfg, h, ask, x, env.now))
  }

  lemma GoesIff(cfg: Config, env: Env, h: Handle, ask: Ask)
    ensures Tried(cfg, h, ask, env.now, env.mint, env.read, env.commit).result == Done <==> Goes(cfg, env, h, ask.(cookies := []), ask.cookies == [])
  {
    SucceedsIff(cfg, h, ask, env.now, env.mint, env.read, env.commit);
  }

  /** The response needs a session. */
  predicate Needed(site: Site, env: Env, header: Headers) {
    AnyStored(site, env, Lines(site, header)) || Elevates(Asking(site, header, []))
  }

  /** On a session it has, the response fails exactly if its transition does not go through ... */
  lemma FailsOnSessionIff(site: Site, cfg: Config, env: Env, h: Handle, hadCookie: bool, header: Headers)
    requires Distinct(site)
    ensures Respond(site, cfg, env, Some(h), hadCookie, false, Opened(site, header), []).failed <==>
            !Goes(cfg, env, h, Asking(site, header, []), forall raw <- Lines(site, header) :: !Kept(site, raw))
  {
    LinesHeard(site, header);
    var s0, s := Sift(Bare(site, Del(Opened(site, header), SET_COOKIE)), [], Some(h), [], false), Sifted(site, cfg, env, Some(h), header);
    SiftFailsIff(site, cfg, env, s0, Lines(site, header));
    SiftBegins(site, cfg, env, s0, Lines(site, header));
    SiftWritesAny(site, cfg, env, s0, Lines(site, header));
    AsksAsHeard(site, header, s.writes);
    GoesIff(cfg, env, h, Asking(site, header, s.writes));
  }

  /** ... and without one, exactly if it needs one that cannot be created, or whose first
      transition does not go through. */
  lemma FailsWithoutIff(site: Site, cfg: Config, env: Env, hadCookie: bool, header: Headers)
    requires Distinct(site)
    ensures Respond(site, cfg, env, None, hadCookie, false, Opened(site, header), []).failed <==>
            && Needed(site, env, header)
            && (CanCreate(env) ==>
                  !Goes(cfg, env, BeginHandle(env.sid.value, env.key.value), Asking(site, header, []), !AnyStored(site, env, Lines(site, header))))
  {
    LinesHeard(site, header);
    var lines := Lines(site, header);
    var s0, s := Sift(Bare(site, Del(Opened(site, header), SET_COOKIE)), [], None, [], false), Sifted(site, cfg, env, None, header);
    SiftFailsIff(site, cfg, env, s0, lines);
    AsksAsHeard(site, header, s.writes);
    if !s.failed {
      SiftBegins(site, cfg, env, s0, lines);
      SiftCreates(site, cfg, env, s0, lines);
      if AnyStored(site, env, lines) { SomethingWritten(site, cfg, env, s0, lines); }
      if CanCreate(env) { GoesIff(cfg, env, BeginHandle(env.sid.value, env.key.value), Asking(site, header, s.writes)); }
    }
  }

  lemma {:induction false} SomethingWritten(site: Site, cfg: Config, env: Env, s: Sift, lines: seq<string>)
    requires !SiftAll(site, cfg, env, s, lines).failed && AnyStored(site, env, lines)
    ensures SiftAll(site, cfg, env, s, lines).writes != []
  {
    var n := |lines| - 1;
    AnyStoredIff(site, env, lines);
    SiftOneMeans(site, cfg, env, SiftAll(site, cfg, env, s, lines[..n]), lines[n], env.clock(n));
    if AnyStored(site, env, lines[..n]) { SomethingWritten(site, cfg, env, s, lines[..n]); }
  }

  /** The transition asked for goes through. */
  predicate Carried(site: Site, cfg: Config, env: Env, live: Option<Handle>, header: Headers) {
    if live.Some? then Goes(cfg, env, live.value, Asking(site, header, []), forall raw <- Lines(site, header) :: !Kept(site, raw))
    else Needed(site, env, header) ==>
           CanCreate(env) && Goes(cfg, env, BeginHandle(env.sid.value, env.key.value), Asking(site, header, []), !AnyStored(site, env, Lines(site, header)))
  }

  /** Exactly when processing a response fails, and when that is answered 502: always if the
      site fails closed, and after a revocation in any case. */
  lemma FailsIff(site: Site, cfg: Config, env: Env, live: Option<Handle>, hadCookie: bool, resolveFailed: bool, header: Headers)
    requires Distinct(site)
    ensures var p := Handled(site, cfg, env, live, hadCookie, resolveFailed, header);
            && (p.failed <==>
                  || (live.Some? && site.synchronize && !env.locked)
                  || (if p.revoke then resolveFailed || (live.Some? && env.delete.fails) else !Carried(site, cfg, env, live, header)))
            && (p.answer502 <==> p.failed && (p.revoke || site.failClosed))
            && ((live.Some? && site.synchronize && !env.locked) || (p.revoke && resolveFailed) ==> p.steps == [] && p.live == live)
  {
    if live.Some? { FailsOnSessionIff(site, cfg, env, live.value, hadCookie, header); } else { FailsWithoutIff(site, cfg, env, hadCookie, header); }
  }
}
