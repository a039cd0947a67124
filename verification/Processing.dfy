/** The interceptor after the handler returned: the once-only response transition,
    statement by statement, equal to what the response path is said to compute. */
module Processing {
  import opened Stores
  import opened Sessions
  import opened Manager
  import opened Response
  import Labels
  import Authz
  import Interception
  import MaxAge

  method WantsRevocation(site: Site, values: seq<string>) returns (r: bool)
    ensures r == WantsRevoke(site, values)
  {
    r := false;
    if site.revokeEnabled {
      for i := 0 to |values|
        invariant r <==> exists raw <- values[..i] :: ParseBool(raw) == Some(true)
      {
        assert values[..i + 1] == values[..i] + [values[i]];
        if ParseBool(values[i]).Some? { r := r || ParseBool(values[i]).value; }
      }
      assert values[..|values|] == values;
    }
  }

  /** The loop that drops the reserved label from a grant. */
  method KeepGrantable(labels: seq<string>) returns (kept: seq<string>)
    ensures kept == Grantable(labels)
  {
    kept := [];
    for i := 0 to |labels|
      invariant kept == Grantable(labels[..i])
    {
      assert labels[..i + 1][..i] == labels[..i];
      if labels[i] != Authz.ANONYMOUS { kept := kept + [labels[i]]; }
    }
    assert labels[..|labels|] == labels;
  }

  lemma {:induction false} FailureEndsSift(site: Site, cfg: Config, env: Env, s: Sift, raws: seq<string>, i: nat)
    requires i <= |raws| && SiftAll(site, cfg, env, s, raws[..i]).failed
    ensures SiftAll(site, cfg, env, s, raws) == SiftAll(site, cfg, env, s, raws[..i])
    decreases |raws|
  {
    if i == |raws| {
      assert raws[..i] == raws;
    } else {
      assert raws[..|raws| - 1][..i] == raws[..i];
      FailureEndsSift(site, cfg, env, s, raws[..|raws| - 1], i);
    }
  }

  class Transition {
    const site: Site
    const cfg: Config
    const shared: Shared
    const hadCookie: bool
    const resolveFailed: bool
    var header: Headers
    var live: Live?
    var revokeRequested: bool
    var failed: bool

    constructor (site: Site, cfg: Config, shared: Shared, live: Live?, hadCookie: bool, resolveFailed: bool, header: Headers)
      ensures this.site == site && this.cfg == cfg && this.shared == shared && this.live == live && this.header == header
      ensures this.hadCookie == hadCookie && this.resolveFailed == resolveFailed && !revokeRequested && !failed
    {
      this.site, this.cfg, this.shared, this.live, this.header := site, cfg, shared, live, header;
      this.hadCookie, this.resolveFailed, revokeRequested, failed := hadCookie, resolveFailed, false, false;
    }

    ghost function Handle(): Option<Handle> reads this, live { if live == null then None else Some(live.Value()) }

    /** Creates the session the first time one is needed. */
    method EnsureLive(env: Env) returns (bad: bool)
      modifies this`live, shared
      ensures live == old(live) || fresh(live)
      ensures var s := WithLive(cfg, env, Sift(header, [], old(Handle()), old(shared.steps), false));
              Handle() == s.live && shared.steps == s.steps && bad == s.failed
    {
      if live != null { return false; }
      live, bad := Begin(cfg, shared, env.born, env.sid, env.key, env.put, env.bind);
    }

    /** The loop over the backend's cookies. */
    method SiftCookies(env: Env, raws: seq<string>) returns (writes: seq<CookieWrite>, bad: bool)
      modifies this`header, this`live, shared
      ensures live == old(live) || fresh(live)
      ensures Sift(header, writes, Handle(), shared.steps, bad) ==
              SiftAll(site, cfg, env, Sift(old(header), [], old(Handle()), old(shared.steps), false), raws)
    {
      ghost var start := Sift(header, [], Handle(), shared.steps, false);
      writes, bad := [], false;
      for i := 0 to |raws|
        invariant live == old(live) || fresh(live)
        invariant Sift(header, writes, Handle(), shared.steps, false) == SiftAll(site, cfg, env, start, raws[..i])
      {
        assert raws[..i + 1][..i] == raws[..i];
        writes, bad := SiftCookie(env, raws[i], env.clock(i), writes);
        if bad {
          FailureEndsSift(site, cfg, env, start, raws, i + 1);
          return;
        }
      }
      assert raws[..|raws|] == raws;
    }

    method SiftCookie(env: Env, raw: string, now: int, before: seq<CookieWrite>) returns (writes: seq<CookieWrite>, bad: bool)
      modifies this`header, this`live, shared
      ensures live == old(live) || fresh(live)
      ensures Sift(header, writes, Handle(), shared.steps, bad) ==
              SiftOne(site, cfg, env, Sift(old(header), before, old(Handle()), old(shared.steps), false), raw, now)
    {
      writes, bad := before, false;
      var parsed := site.parse(raw);
      if parsed.None? { return; }
      match site.decide(parsed.value.name) {
        case Forward => header := Add(header, SET_COOKIE, raw);
        case Drop =>
        case Keep =>
          var deletes := MaxAge.CookieDeletesNow(raw, parsed.value.expires, now);
          if deletes {
            if live != null { writes := writes + [CookieWrite(parsed.value.name, "", true)]; }
            return;
          }
          bad := EnsureLive(env);
          if !bad { writes := writes + [CookieWrite(parsed.value.name, parsed.value.value, false)]; }
      }
    }

    method Revoke(env: Env) returns (bad: bool)
      modifies this`header, this`live, live, shared
      ensures live == old(live) || live == null
      ensures Reply(header, Handle(), shared.steps, bad) ==
              Revoking(site, env, old(Handle()), hadCookie, old(header), old(shared.steps))
    {
      header := Del(Del(Del(header, site.identity), site.rotate), site.labels);
      if live != null {
        var r := live.Revoke(shared, env.delete);
        if r != Done { return true; }
        live := null;
      }
      if hadCookie { header := Add(header, SET_COOKIE, site.expiredCookie); }
      return false;
    }

    /** The one conditional commit at the end, and the cookie that announces its key. */
    method Commit(env: Env, ask: Ask) returns (bad: bool)
      modifies this`header, this`live, live, shared
      ensures Reply(header, Handle(), shared.steps, bad) ==
              Committing(site, cfg, env, Sift(old(header), ask.cookies, old(Handle()), old(shared.steps), false), ask)
    {
      if live == null && (ask.owner.Some? || (ask.labels.Some? && |ask.labels.value| > 0)) {
        bad := EnsureLive(env);
        if bad { return; }
      }
      if live == null { return false; }
      var r := live.ApplyControls(cfg, shared, ask, env.now, env.mint, env.read, env.commit);
      if r != Done { return true; }
      if live.rewrite { header := Add(header, SET_COOKIE, site.proxyCookie(live.newKey)); }
      return false;
    }

    /** Every control is removed, whether or not it makes sense. */
    method ReadControls() returns (ask: Ask)
      modifies this`header
      ensures ask == Asked(site, old(header), []) && header == Bare(site, old(header))
    {
      var owner := ParseOwner(First(header, site.identity));
      header := Del(header, site.identity);
      var force := site.rotateEnabled && ParseBool(First(header, site.rotate)) == Some(true);
      header := Del(header, site.rotate);
      var values, grant := Values(header, site.labels), None;
      header := Del(header, site.labels);
      if |values| > 0 {
        var kept := KeepGrantable(Labels.SplitLabels(JoinCommas(values)));
        grant := Some(kept);
      }
      ask := Ask(owner, grant, force, true, []);
    }

    method ProcessLocked(env: Env) returns (bad: bool)
      modifies this`header, this`live, live, shared
      ensures Reply(header, Handle(), shared.steps, bad) ==
              Respond(site, cfg, env, old(Handle()), hadCookie, revokeRequested, old(header), old(shared.steps))
    {
      var raws := Values(header, SET_COOKIE);
      header := Del(header, SET_COOKIE);
      if revokeRequested {
        bad := Revoke(env);
        return;
      }
      var ask := ReadControls();
      var writes;
      writes, bad := SiftCookies(env, raws);
      if bad { return; }
      bad := Commit(env, ask.(cookies := writes));
    }

    /** The controls are stripped first, so that a refused lock leaks nothing. */
    method Process(env: Env) returns (bad: bool)
      requires !revokeRequested
      modifies this, live, shared
      ensures revokeRequested == WantsRevoke(site, Values(Stripped(site, old(header)), site.revoke)) && failed == old(failed)
      ensures Reply(header, Handle(), shared.steps, bad) ==
              Transit(site, cfg, env, old(Handle()), hadCookie, resolveFailed, revokeRequested,
                      Del(Stripped(site, old(header)), site.revoke), old(shared.steps))
    {
      header := Interception.StripTrailers(site, header);
      var values := Values(header, site.revoke);
      header := Del(header, site.revoke);
      revokeRequested := WantsRevocation(site, values);
      if revokeRequested && resolveFailed { return true; }
      if live != null && site.synchronize && !env.locked { return true; }
      bad := ProcessLocked(env);
    }

    method Sweep()
      modifies this`header, this`failed
      ensures header == old(header).(fields := old(header.fields) - Managed(site)) && failed == (site.failClosed || revokeRequested)
    {
      header := Del(Del(Del(Del(Del(header, SET_COOKIE), site.identity), site.rotate), site.revoke), site.labels);
      failed := site.failClosed || revokeRequested;
      assert header.fields == old(header.fields) - Managed(site);
    }

    method EnsureProcessed(env: Env) returns (bad: bool)
      requires !revokeRequested && !failed
      modifies this, live, shared
      ensures Processed(header, Handle(), shared.steps, revokeRequested, bad, failed) ==
              Response.Process(site, cfg, env, old(Handle()), hadCookie, resolveFailed, old(header), old(shared.steps))
    {
      bad := Process(env);
      if bad { Sweep(); }
    }
  }
}
