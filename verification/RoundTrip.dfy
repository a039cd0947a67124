/** From backend to backend: a cookie a response stored comes back with later requests. */
module RoundTrip {
  import opened Stores
  import opened Sessions
  import opened Manager
  import opened Response
  import P = Protocol
  import Runs = ProtocolRuns
  import opened CookieRuns
  import opened ResponseEffects
  import opened Upstream

  /** A response stored a cookie of its session: the
      line `i`, the last about it, with a lifetime ahead. However the run goes on from there,
      as long as nobody writes the cookie and the session is there, a request whose key
      resolves to the session carries the cookie to the backend with that value and no other. */
  lemma BackendSeesItsCookie(site: Site, cfg: Config, env: Env, live: Option<Handle>, hadCookie: bool, resolveFailed: bool, header: Headers, i: nat,
                             w: P.World, run: seq<P.Action>, key: Id, at: int, t: Turns, own: seq<Own>,
                             proxy: string, client: seq<Pair>, kept: seq<Pair>, p: Pair)
    requires Distinct(site)
    requires var r := Handled(site, cfg, env, live, hadCookie, resolveFailed, header); !r.failed && !r.revoke
    requires var lines := Lines(site, header);
             IsLastLine(site, lines, i) && !Ends(site, lines[i], env.clock(i)) && p.name == NameOf(site, lines[i])
    requires var r := Handled(site, cfg, env, live, hadCookie, resolveFailed, header);
             r.steps != [] && w.store == LastStore(r) && r.live.Some? && r.live.value.sid in w.store.sessions
    requires P.Inv(cfg, w) && Runs.Possible(cfg, w, run)
    requires var sid := Handled(site, cfg, env, live, hadCookie, resolveFailed, header).live.value.sid;
             && Unwritten(cfg, w, run, sid, p.name)
             && t.cookies.seen == Runs.Run(cfg, w, run).store && sid in t.cookies.seen.sessions
             && var f := Resolving(cfg, own, key, at, t);
                f.live.Some? && f.live.value.sid == sid && Sends(site, proxy, client, f.live.value.cookies, kept)
    ensures p in kept <==> p.value == site.parse(Lines(site, header)[i]).value.value
  {
    var lines := Lines(site, header);
    var sid := Handled(site, cfg, env, live, hadCookie, resolveFailed, header).live.value.sid;
    assert lines[..i + 1][i] == lines[i];
    assert StoresAt(site, env, lines[..i + 1], i);
    CookiesAreStored(site, cfg, env, live, hadCookie, resolveFailed, header, i);
    RunKeepsCookie(cfg, w, run, sid, p.name);
    HandleShowsRows(cfg, own, key, at, t);
    SentIff(site, proxy, client, Resolving(cfg, own, key, at, t).live.value.cookies, kept, p);
  }
}
