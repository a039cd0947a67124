/** One request from the resolve to the last byte: the gate in front of the handler,
    the handler's calls on the interceptor, and what is done once it returned. */
module Serving {
  import opened Stores
  import opened Sessions
  import opened Manager
  import opened Response
  import opened Staging
  import opened Interception
  import opened Processing
  import Authz
  import Labels
  import Policy
  import WayBack
  import Upstream
  import ManagerSteps
  import P = Protocol

  // ---- in front of the handler ----------------------------------------------------------------

  datatype Verdict = Admitted | StoreDown | Denied(tag: string)

  ghost function HandleOf(live: Live?): Option<Handle> reads live { if live == null then None else Some(live.Value()) }

  /** The key led to an unexpired session, and both were read. */
  ghost predicate Presented(key: Option<Id>, now: int, t: Turns, x: Session) {
    && key.Some? && key.value in t.key.seen.keys
    && var sid := t.key.seen.keys[key.value]; sid in t.session.seen.sessions && x == t.session.seen.sessions[sid] && !Expired(x, now)
  }

  function ResolveSteps(cfg: Config, own: seq<Own>, key: Option<Id>, now: int, t: Turns): seq<Own> {
    if key.None? then own else Resolving(cfg, own, key.value, now, t).steps
  }

  /** A request reaches the handler only if its path needs no label, or its key led to
      an unexpired session that carries the label needed, even when the store fails open. */
  method Admit(site: Site, cfg: Config, policy: Option<Policy.Compiled>, shared: Shared, key: Option<Id>, path: string, now: int, t: Turns)
    returns (verdict: Verdict, live: Live?, resolveFailed: bool)
    modifies shared
    ensures live != null ==> fresh(live)
    ensures Found(HandleOf(live), resolveFailed, shared.steps) ==
            if key.None? then Found(None, false, old(shared.steps)) else Resolving(cfg, old(shared.steps), key.value, now, t)
    ensures verdict ==
            if resolveFailed && site.failClosed then StoreDown
            else if policy.None? then Admitted
            else
              var tag := Policy.Required(policy.value, path);
              if tag == Authz.ANONYMOUS || (live != null && tag in live.labels) then Admitted else Denied(tag)
    ensures verdict == Admitted && policy.Some? ==>
              var tag := Policy.Required(policy.value, path);
              tag == Authz.ANONYMOUS || exists x :: Presented(key, now, t, x) && tag in Labels.Fields(x.labels)
  {
    live, resolveFailed := null, false;
    if key.Some? {
      live, resolveFailed := Resolve(cfg, shared, key.value, now, t);
      ghost var f := Resolving(cfg, old(shared.steps), key.value, now, t);
      if resolveFailed {
        if site.failClosed { return StoreDown, null, true; }
        live := null;
      }
      if live != null {
        assert f.live.Some?;
        assert Presented(key, now, t, t.session.seen.sessions[t.key.seen.keys[key.value]]);
      }
    }
    if policy.Some? {
      var required := Policy.RequiredLoop(policy.value, path);
      if required != Authz.ANONYMOUS && (live == null || required !in live.labels) {
        return Denied(required), live, resolveFailed;
      }
    }
    verdict := Admitted;
  }

  /** The label the gate goes by is stored at the moment of the resolve's touch, under a
      key that maps to the session at that moment: `u`, `v` and `w` are the worlds in which
      a run takes the request's read of the key, its read of the session and its touch. */
  lemma GateIsCurrent(cfg: Config, u: P.World, v: P.World, w: P.World, r: nat, at: int, t: Turns, own: seq<Own>, tag: string)
    requires P.At(u, r) && u.reqs[r].Presented? && t.key.seen == u.store && t.session.seen == v.store && t.touch.seen == w.store
    requires r in P.Next(cfg, u, P.GetKey(r, t.key.fails)).reqs ==> ManagerSteps.Waits(P.Next(cfg, u, P.GetKey(r, t.key.fails)), v, r)
    requires r in v.reqs && v.reqs[r].Keyed? && r in P.Next(cfg, v, P.GetSession(r, t.session.fails, at)).reqs ==>
               ManagerSteps.Waits(P.Next(cfg, v, P.GetSession(r, t.session.fails, at)), w, r)
    requires P.Inv(cfg, w)
    ensures var live := Resolving(cfg, own, u.reqs[r].key, at, t).live;
            live.Some? && tag in live.value.labels ==>
              && r in w.reqs && w.reqs[r].Read?
              && var s := P.Next(cfg, w, P.Touch(r, t.touch.fails)).store;
                 && Maps(s, u.reqs[r].key, live.value.sid) && live.value.sid in s.sessions
                 && tag in Labels.Fields(s.sessions[live.value.sid].labels)
  {
    ManagerSteps.ResolveIsCurrent(cfg, u, v, w, r, at, t, own);
  }

  const LOCATION := "Location"
  const AUTH_ENDPOINT := "X-Auth-Endpoint"

  function EndpointOf(policy: Policy.Compiled, tag: string): string {
    if tag in policy.endpoints then policy.endpoints[tag] else ""
  }

  /** The header a denied request is answered with: browsers are redirected to the
      label's endpoint with their way back, everybody else is told about it. */
  function Denial(policy: Policy.Compiled, tag: string, html: bool, path: string, query: string): (Name, string) {
    if html then (LOCATION, Policy.Location(policy, EndpointOf(policy, tag), WayBack.QueryEscape(WayBack.Target(path, query))))
    else (AUTH_ENDPOINT, EndpointOf(policy, tag))
  }

  method Deny(policy: Policy.Compiled, wire: Wire, tag: string, html: bool, path: string, query: string)
    requires wire.sent == [] && wire.Open()
    modifies wire
    ensures var (name, value) := Denial(policy, tag, html, path, query);
            wire.sent == [Sent(if html then 302 else 401, old(wire.header).(fields := old(wire.header.fields)[name := [value]]))]
  {
    var endpoint := EndpointOf(policy, tag);
    if html {
      var back := path;
      if query != "" { back := back + "?" + query; }
      var sep := if '?' in endpoint then "&" else "?";
      wire.header := wire.header.(fields := wire.header.fields[LOCATION := [endpoint + sep + policy.param + "=" + WayBack.QueryEscape(back)]]);
      wire.WriteHeader(302);
      return;
    }
    wire.header := wire.header.(fields := wire.header.fields[AUTH_ENDPOINT := [endpoint]]);
    wire.WriteHeader(401);
  }

  // ---- the handler ---------------------------------------------------------------------------------

  /** What a handler may do with its response writer, and how the world reacts. */
  datatype Call =
    | SetHeader(h: Headers)
    | SendHeader(status: int, bytes: nat)
    | SendBody(p: seq<Byte>, disk: Disk)
    | Flush(bytes: nat, works: bool)
    | Hijack(bytes: nat, works: bool)

  predicate Sensible(c: Call) { c.SendHeader? ==> 100 <= c.status <= 999 }

  /** How often a handler tries to hijack the connection. */
  function Hijacks(calls: seq<Call>): nat {
    if calls == [] then 0 else Hijacks(calls[..|calls| - 1]) + if calls[|calls| - 1].Hijack? then 1 else 0
  }

  lemma {:induction false} HijacksBefore(calls: seq<Call>, i: nat)
    requires i <= |calls|
    ensures Hijacks(calls[..i]) <= Hijacks(calls)
    decreases |calls|
  {
    if i == |calls| {
      assert calls[..i] == calls;
    } else {
      assert calls[..|calls| - 1][..i] == calls[..i];
      HijacksBefore(calls[..|calls| - 1], i);
    }
  }

  /** Whatever a handler does, the interceptor's invariant holds and no store step is
      taken; and whatever else it does, a handler that hijacks once at most leaves nothing
      unfit on the wire or pending. */
  method RunHandler(ic: Interceptor, calls: seq<Call>)
    requires ic.Valid() && forall c <- calls :: Sensible(c)
    modifies ic, ic.wire, ic.body, ic.body.budget
    ensures ic.Valid() && ic.Others() == old(ic.Others())
    ensures !old(ic.terminal) && Hijacks(calls) <= 1 ==> ic.Clean()
  {
    for i := 0 to |calls|
      invariant ic.Valid() && ic.Others() == old(ic.Others())
      invariant !old(ic.terminal) && Hijacks(calls) <= 1 ==> ic.Clean() && (Hijacks(calls[..i]) == 0 && ic.terminal ==> !ic.wire.Open())
    {
      assert calls[i] in calls && calls[..i + 1][..i] == calls[..i];
      HijacksBefore(calls, i + 1);
      match calls[i] {
        case SetHeader(h) => ic.header := h;
        case SendHeader(status, bytes) => ic.WriteHeader(status, bytes);
        case SendBody(p, disk) => var _, _ := ic.Write(p, disk);
        case Flush(bytes, works) => var _ := ic.FlushError(bytes, works);
        case Hijack(bytes, works) => var _ := ic.Hijack(bytes, works);
      }
    }
  }

  // ---- after the handler -------------------------------------------------------------------------------

  /** How a request ended. `Answered` carries the body bytes the client took. */
  datatype Exit = HandlerError | BadGateway | Upgraded | Answered(out: seq<Byte>, complete: bool)

  /** Dropping everything the handler staged. */
  method Abandon(ic: Interceptor)
    requires ic.Valid()
    modifies ic`header, ic`once, ic.wire`header, ic.body, ic.body.budget
    ensures ic.body.Sharing() && ic.Others() == old(ic.Others()) && ic.body.reserved == 0 && ic.wire.header == BARE
  {
    ic.body.Clear();
    ic.Discard();
    ic.wire.header := BARE;
  }

  lemma BareIsFit(site: Site)
    ensures Outward(site, BARE)
  {
  }

  /** Answers 502 with no header of the handler's. */
  method Refuse(ic: Interceptor)
    requires ic.Valid()
    modifies ic`header, ic`once, ic.wire, ic.body, ic.body.budget
    ensures ic.body.Sharing() && ic.Others() == old(ic.Others()) && ic.body.reserved == 0
    ensures ic.wire.AllFit(ic.site) <==> old(ic.wire.AllFit(ic.site))
    ensures !ic.terminal ==> ic.wire.sent == [Sent(502, BARE)]
  {
    Abandon(ic);
    BareIsFit(ic.site);
    ic.wire.WriteHeader(502);
  }

  /** All headers of a response, the server's own 200 included. */
  method AnnounceAll(ic: Interceptor)
    requires ic.wire.sent == [] && ic.wire.Open() && (forall s <- ic.informational :: Informational(s.status)) && Outward(ic.site, ic.header)
    modifies ic.wire
    ensures ic.wire.AllFit(ic.site)
    ensures ic.wire.sent == Announced(ic.site, ic.informational) + [Sent(if ic.wroteHeader then ic.status else 200, ic.header)]
  {
    ic.Announce();
    if !ic.wroteHeader { ic.wire.Commit(); }
  }

  method SendStaged(body: Body, back: Readback, takes: nat) returns (exit: Exit)
    requires body.Valid() && (!body.validated || body.file.NoFile? || body.file.pos == 0)
    modifies body`file, body`validated
    ensures body.Valid() && exit.Answered? && exit.out <= body.accepted && (exit.complete ==> exit.out == body.accepted)
  {
    if body.size == 0 { return Answered([], true); }
    var out, failed := body.FlushTo(back, takes);
    return Answered(out, !failed);
  }

  /** Sends a processed response; with no header written the server sends it as a 200. */
  method Deliver(ic: Interceptor, back: Readback, takes: nat) returns (exit: Exit)
    requires ic.body.Sharing() && ic.wire.sent == [] && ic.wire.Open() && forall s <- ic.informational :: Informational(s.status)
    requires !ic.body.validated || ic.body.file.NoFile? || ic.body.file.pos == 0
    requires if ic.wroteHeader then !Informational(ic.status) else ic.body.accepted == []
    requires Outward(ic.site, ic.header)
    modifies ic.wire, ic.body`file, ic.body`validated
    ensures ic.body.Sharing() && ic.wire.AllFit(ic.site)
    ensures exit.Answered? && exit.out <= old(ic.body.accepted) && (exit.complete ==> exit.out == old(ic.body.accepted))
    ensures ic.wire.sent == Announced(ic.site, ic.informational) + [Sent(if ic.wroteHeader then ic.status else 200, ic.header)]
  {
    AnnounceAll(ic);
    if !ic.wroteHeader { return Answered([], true); }
    exit := SendStaged(ic.body, back, takes);
  }

  /** A spooled body that does not read back is refused. */
  method CheckBody(ic: Interceptor, back: Readback) returns (bad: bool)
    requires ic.Valid() && !ic.terminal && !ic.writeErr
    modifies ic`header, ic`once, ic.wire, ic.body, ic.body.budget
    ensures ic.body.Sharing() && ic.Others() == old(ic.Others()) && (bad <==> !old(ic.body.Readable(back)))
    ensures bad ==> ic.body.reserved == 0 && ic.wire.AllFit(ic.site) && ic.wire.sent == [Sent(502, BARE)]
    ensures !bad ==> unchanged(ic, ic.wire) && ic.body.accepted == old(ic.body.accepted) && (ic.body.file.NoFile? || ic.body.file.pos == 0)
  {
    bad := ic.body.Validate(back);
    if bad { Refuse(ic); }
  }

  /** Everything that keeps a response from being processed. */
  method Screen(ic: Interceptor, handlerErr: bool, bytes: nat, back: Readback) returns (exit: Option<Exit>)
    requires ic.Valid()
    modifies ic, ic.wire, ic.body, ic.body.budget
    ensures ic.body.Sharing() && ic.Others() == old(ic.Others())
    ensures ic.wire.AllFit(ic.site) <==> old(if exit == Some(Upgraded) then ic.Clean() else ic.wire.AllFit(ic.site))
    ensures exit.Some? ==> ic.body.reserved == 0 && exit.value in {HandlerError, BadGateway, Upgraded}
    ensures exit == Some(HandlerError) <==> handlerErr && !old(ic.writeErr)
    ensures exit == Some(Upgraded) <==> !handlerErr && old(!ic.writeErr && ic.Fits(bytes) && ic.terminal)
    ensures exit == Some(HandlerError) ==> ic.wire.header == BARE && unchanged(ic.wire`sent, ic.wire`written)
    ensures exit == Some(BadGateway) && !old(ic.terminal) ==> ic.wire.sent == [Sent(502, BARE)]
    ensures exit.None? <==> !handlerErr && old(!ic.terminal && !ic.writeErr && ic.Fits(bytes) && ic.body.Readable(back))
    ensures exit.None? ==>
      && unchanged(ic.wire) && unchanged(ic`header, ic`informational, ic`wroteHeader, ic`status, ic`told) && !ic.once && ic.wire.sent == [] && ic.wire.Open()
      && ic.body.accepted == ic.told && (ic.body.file.NoFile? || ic.body.file.pos == 0)
  {
    if ic.writeErr {
      Refuse(ic);
      return Some(BadGateway);
    }
    if handlerErr {
      Abandon(ic);
      return Some(HandlerError);
    }
    var ok := ic.ReserveFinal(bytes);
    if !ok {
      ic.writeErr := true;
      Refuse(ic);
      return Some(BadGateway);
    }
    if ic.terminal {
      ic.wire.Commit();
      ic.body.Clear();
      return Some(Upgraded);
    }
    var bad := CheckBody(ic, back);
    return if bad then Some(BadGateway) else None;
  }

  /** What the request brought along for its response. */
  datatype Resolved = Resolved(cfg: Config, shared: Shared, live: Live?, hadCookie: bool, failed: bool)

  function LastHeader(sent: seq<Sent>): Headers { if sent == [] then BARE else sent[|sent| - 1].header }

  lemma LastOf(sent: seq<Sent>, last: Sent)
    ensures LastHeader(sent + [last]) == last.header
  {
  }

  /** The presented key outlives the request's steps, or the client is told on the wire:
      of the key it was swapped for, or that its session is over. */
  ghost predicate Informed(site: Site, live: Option<Handle>, own: seq<Own>, sent: seq<Sent>, k: Id) {
    || AllKeep(own, k)
    || (live.Some? && |own| == 2 && Idle(own[0])
        && exists n :: Swaps(own[1], k, live.value.sid, n) && site.proxyCookie(n) in Values(LastHeader(sent), SET_COOKIE))
    || (live.Some? && Erases(own, live.value.sid) && site.expiredCookie in Values(LastHeader(sent), SET_COOKIE))
  }

  /** Every key the request may have been made with and that is not minted in it. */
  ghost predicate AllInformed(site: Site, env: Env, live: Option<Handle>, hadCookie: bool, own: seq<Own>, sent: seq<Sent>) {
    forall k :: env.key != Some(k) && env.mint != Some(k) && (live.Some? ==> live.value.key == k && !live.value.rewrite && hadCookie) ==>
      Informed(site, live, own, sent, k)
  }

  /** A revocation is done before the answer leaves, or the answer is a bare 502 and nothing has changed. */
  ghost predicate Honest(live: Option<Handle>, own: seq<Own>, sent: seq<Sent>, exit: Exit) {
    if exit == BadGateway then sent == [Sent(502, BARE)] && forall o <- own :: Idle(o)
    else exit.Answered? && (live.Some? ==> Erases(own, live.value.sid))
  }

  /** What the client of a processed request gets to know of its key and its session, and
      exactly which cookies it gets. */
  ghost predicate Told(site: Site, rq: Resolved, env: Env, live: Option<Handle>, header: Headers, p: Processed, sent: seq<Sent>, exit: Exit) {
    && AllInformed(site, env, live, rq.hadCookie, p.steps, sent)
    && (WantsRevoke(site, Values(Stripped(site, header), site.revoke)) ==> Honest(live, p.steps, sent, exit))
    && Values(LastHeader(sent), SET_COOKIE) == if exit == BadGateway then [] else Shown(site, rq.hadCookie, header, p)
  }

  lemma ProcessingInforms(site: Site, cfg: Config, env: Env, live: Option<Handle>, hadCookie: bool, resolveFailed: bool, header: Headers, sent: seq<Sent>)
    requires var p := Process(site, cfg, env, live, hadCookie, resolveFailed, header, []); p.answer502 || LastHeader(sent) == p.header
    ensures AllInformed(site, env, live, hadCookie, Process(site, cfg, env, live, hadCookie, resolveFailed, header, []).steps, sent)
  {
    var p := Process(site, cfg, env, live, hadCookie, resolveFailed, header, []);
    forall k | env.key != Some(k) && env.mint != Some(k) && (live.Some? ==> live.value.key == k && !live.value.rewrite && hadCookie)
      ensures Informed(site, live, p.steps, sent, k)
    {
      NobodyIsStranded(site, cfg, env, live, hadCookie, resolveFailed, header, k);
      if p.revoke { RevocationIsHonest(site, cfg, env, live, hadCookie, resolveFailed, header); }
    }
  }

  lemma ProcessingTells(site: Site, rq: Resolved, env: Env, live: Option<Handle>, header: Headers, sent: seq<Sent>, exit: Exit)
    requires var p := Process(site, rq.cfg, env, live, rq.hadCookie, rq.failed, header, []);
             if p.answer502 then exit == BadGateway && sent == [Sent(502, BARE)] else exit.Answered? && LastHeader(sent) == p.header
    ensures Told(site, rq, env, live, header, Process(site, rq.cfg, env, live, rq.hadCookie, rq.failed, header, []), sent, exit)
  {
    ProcessingInforms(site, rq.cfg, env, live, rq.hadCookie, rq.failed, header, sent);
    CookiesAreExact(site, rq.cfg, env, live, rq.hadCookie, rq.failed, header);
    if WantsRevoke(site, Values(Stripped(site, header), site.revoke)) {
      RevocationIsHonest(site, rq.cfg, env, live, rq.hadCookie, rq.failed, header);
    }
  }

  /** The transition and what goes on the wire after it. */
  method Complete(ic: Interceptor, rq: Resolved, back: Readback, env: Env, takes: nat) returns (exit: Exit)
    requires ic.body.Sharing() && ic.wire.sent == [] && ic.wire.Open() && (forall s <- ic.informational :: Informational(s.status)) && !ic.once
    requires ic.body.file.NoFile? || ic.body.file.pos == 0
    requires if ic.wroteHeader then !Informational(ic.status) else ic.body.accepted == []
    modifies ic`header, ic`once, ic.wire, ic.body, ic.body.budget, rq.live, rq.shared
    ensures ic.body.Sharing() && ic.Others() == old(ic.Others()) && ic.body.reserved == 0 && ic.wire.AllFit(ic.site)
    ensures var p := Process(ic.site, rq.cfg, env, old(HandleOf(rq.live)), rq.hadCookie, rq.failed, old(ic.header), []);
      && rq.shared.steps == old(rq.shared.steps) + p.steps
      && Told(ic.site, rq, env, old(HandleOf(rq.live)), old(ic.header), p, ic.wire.sent, exit)
      && if p.answer502 then exit == BadGateway && ic.wire.sent == [Sent(502, BARE)]
         else
           && exit.Answered? && exit.out <= old(ic.body.accepted) && (exit.complete ==> exit.out == old(ic.body.accepted))
           && ic.wire.sent == Announced(ic.site, ic.informational) + [Sent(if ic.wroteHeader then ic.status else 200, p.header)]
  {
    ghost var live, header := HandleOf(rq.live), ic.header;
    var failed := Transact(ic, rq, env);
    exit := Finish(ic, failed, back, takes);
    if !failed { LastOf(Announced(ic.site, ic.informational), Sent(if ic.wroteHeader then ic.status else 200, ic.header)); }
    ProcessingTells(ic.site, rq, env, live, header, ic.wire.sent, exit);
  }

  /** The end of a request. The session changes only here, at most once, and only after
      the handler returned cleanly with nothing on the wire and the staged body was read
      back; whatever was asked for has been done or undone before the first byte leaves. */
  method Conclude(ic: Interceptor, rq: Resolved, handlerErr: bool, bytes: nat, back: Readback, env: Env, takes: nat)
    returns (exit: Exit, processed: bool)
    requires ic.Valid()
    modifies ic, ic.wire, ic.body, ic.body.budget, rq.live, rq.shared
    ensures ic.body.Sharing() && ic.Others() == old(ic.Others()) && ic.body.reserved == 0
    ensures ic.wire.AllFit(ic.site) <==> old(if exit == Upgraded then ic.Clean() else ic.wire.AllFit(ic.site))
    ensures processed <==> !handlerErr && old(!ic.terminal && !ic.writeErr && ic.Fits(bytes) && ic.body.Readable(back))
    ensures !processed ==> rq.shared.steps == old(rq.shared.steps)
    ensures exit == HandlerError <==> handlerErr && !old(ic.writeErr)
    ensures exit == Upgraded <==> !handlerErr && old(!ic.writeErr && ic.Fits(bytes) && ic.terminal)
    ensures exit == HandlerError ==> ic.wire.header == BARE && unchanged(ic.wire`sent, ic.wire`written)
    ensures exit == BadGateway && !old(ic.terminal) ==> ic.wire.sent == [Sent(502, BARE)]
    ensures exit.Answered? ==> processed
    ensures processed ==>
      var p := Response.Process(ic.site, rq.cfg, env, old(HandleOf(rq.live)), rq.hadCookie, rq.failed, old(ic.header), []);
      && rq.shared.steps == old(rq.shared.steps) + p.steps && (exit == BadGateway <==> p.answer502)
      && Told(ic.site, rq, env, old(HandleOf(rq.live)), old(ic.header), p, ic.wire.sent, exit)
      && (exit != BadGateway ==>
            && exit.Answered? && exit.out <= old(ic.told) && (exit.complete ==> exit.out == old(ic.told))
            && ic.wire.sent == old(Announced(ic.site, ic.informational)) + [Sent(if old(ic.wroteHeader) then old(ic.status) else 200, p.header)])
  {
    var early := Screen(ic, handlerErr, bytes, back);
    if early.Some? { return early.value, false; }
    exit := Complete(ic, rq, back, env, takes);
    processed := true;
  }

  /** The response transition, run on the headers the handler left. */
  method Transact(ic: Interceptor, rq: Resolved, env: Env) returns (failed: bool)
    requires !ic.once
    modifies ic`header, ic`once, rq.live, rq.shared
    ensures var p := Response.Process(ic.site, rq.cfg, env, old(HandleOf(rq.live)), rq.hadCookie, rq.failed, old(ic.header), []);
      rq.shared.steps == old(rq.shared.steps) + p.steps && failed == p.answer502 && ic.header == p.header && Outward(ic.site, p.header)
  {
    var t := new Transition(ic.site, rq.cfg, rq.shared, rq.live, rq.hadCookie, rq.failed, ic.header);
    ProcessExtends(ic.site, rq.cfg, env, HandleOf(rq.live), rq.hadCookie, rq.failed, ic.header, rq.shared.steps);
    NothingManagedLeaves(ic.site, rq.cfg, env, HandleOf(rq.live), rq.hadCookie, rq.failed, ic.header);
    ic.once := true;
    var _ := t.EnsureProcessed(env);
    ic.header, failed := t.header, t.failed;
  }

  /** What goes on the wire after the transition. */
  method Finish(ic: Interceptor, failed: bool, back: Readback, takes: nat) returns (exit: Exit)
    requires ic.body.Sharing() && ic.wire.sent == [] && ic.wire.Open() && forall s <- ic.informational :: Informational(s.status)
    requires !ic.body.validated || ic.body.file.NoFile? || ic.body.file.pos == 0
    requires if ic.wroteHeader then !Informational(ic.status) else ic.body.accepted == []
    requires Outward(ic.site, ic.header)
    modifies ic.wire, ic.body, ic.body.budget
    ensures ic.body.Sharing() && ic.Others() == old(ic.Others()) && ic.body.reserved == 0 && ic.wire.AllFit(ic.site)
    ensures failed ==> exit == BadGateway && ic.wire.sent == [Sent(502, BARE)]
    ensures !failed ==>
      && exit.Answered? && exit.out <= old(ic.body.accepted) && (exit.complete ==> exit.out == old(ic.body.accepted))
      && ic.wire.sent == Announced(ic.site, ic.informational) + [Sent(if ic.wroteHeader then ic.status else 200, ic.header)]
  {
    if failed {
      ic.wire.header := BARE;
      BareIsFit(ic.site);
      ic.wire.WriteHeader(502);
      exit := BadGateway;
    } else {
      exit := Deliver(ic, back, takes);
    }
    ic.body.Clear();
  }

  // ---- the whole request -----------------------------------------------------------------------------

  /** What happens around one request: its key and path, the store's turns, what the
      handler does and how it ends, and what the operating system and the client do. */
  datatype Scene = Scene(key: Option<Id>, path: string, query: string, html: bool, proxy: string, cookies: seq<Upstream.Pair>, now: int, turns: Turns, extended: bool,
                         calls: seq<Call>, handlerErr: bool, bytes: nat, back: Readback, env: Env, takes: nat)

  /** The handle the request resolved its key to. */
  function ResolvedLive(cfg: Config, scene: Scene): Option<Handle> {
    if scene.key.None? then None else Resolving(cfg, [], scene.key.value, scene.now, scene.turns).live
  }

  lemma ResolvedPresents(cfg: Config, own: seq<Own>, scene: Scene)
    requires scene.key.Some?
    ensures Resolving(cfg, own, scene.key.value, scene.now, scene.turns).live == ResolvedLive(cfg, scene)
    ensures ResolvedLive(cfg, scene).Some? ==> ResolvedLive(cfg, scene).value.key == scene.key.value && !ResolvedLive(cfg, scene).value.rewrite
  {
  }

  /** An admitted request: the handler and what is done once it returned. */
  method Answer(site: Site, rq: Resolved, wire: Wire, budget: Budget, scene: Scene)
    returns (exit: Exit, processed: bool, ghost handed: Headers, ghost clean: bool, staging: Body)
    requires wire.sent == [] && wire.Open() && budget.Valid() && forall c <- scene.calls :: Sensible(c)
    modifies rq.shared, rq.live, wire, budget
    ensures fresh(staging) && staging.budget == budget && staging.Valid() && staging.reserved == 0 && staging.Others() == old(budget.used)
    ensures (Hijacks(scene.calls) <= 1 ==> clean) && (clean ==> wire.AllFit(site)) && (exit == Upgraded && wire.AllFit(site) ==> clean)
    ensures old(rq.shared.steps) <= rq.shared.steps && (!processed ==> rq.shared.steps == old(rq.shared.steps))
    ensures processed ==>
      var own, live := rq.shared.steps[|old(rq.shared.steps)|..], old(HandleOf(rq.live));
      && !scene.handlerErr && AllInformed(site, scene.env, live, rq.hadCookie, own, wire.sent)
      && (WantsRevoke(site, Values(Stripped(site, handed), site.revoke)) ==> Honest(live, own, wire.sent, exit))
  {
    staging := new Body(budget);
    var ic := new Interceptor(site, wire, staging, scene.extended);
    RunHandler(ic, scene.calls);
    handed, clean := ic.header, ic.Clean();
    exit, processed := Conclude(ic, rq, scene.handlerErr, scene.bytes, scene.back, scene.env, scene.takes);
  }

  /** One request. A denied one takes no step beyond its resolve and gets the denial. An
      admitted one sends nothing unfit unless it repeats a failed hijack, and its staging
      holds nothing of the budget at the end. If its response is processed, the key it
      was made with is kept or the client is told on the wire, and a revocation asked for
      is done or answered 502. `handed` are the headers the handler left. */
  method Serve(site: Site, cfg: Config, policy: Option<Policy.Compiled>, shared: Shared, wire: Wire, budget: Budget, scene: Scene)
    returns (verdict: Verdict, upstream: seq<Upstream.Pair>, exit: Option<Exit>, processed: bool, ghost handed: Headers, ghost clean: bool, staging: Body?)
    requires wire.sent == [] && wire.Open() && budget.Valid() && forall c <- scene.calls :: Sensible(c)
    modifies shared, wire, budget
    ensures (verdict == Admitted <==> exit.Some?) && (exit.Some? <==> staging != null)
    ensures verdict == Admitted && policy.Some? ==>
              var tag := Policy.Required(policy.value, scene.path);
              tag == Authz.ANONYMOUS || exists x :: Presented(scene.key, scene.now, scene.turns, x) && tag in Labels.Fields(x.labels)
    ensures verdict == Admitted ==>
              var live := ResolvedLive(cfg, scene);
              Upstream.Sends(site, scene.proxy, scene.cookies, if live.Some? then live.value.cookies else map[], upstream)
    ensures staging != null ==> staging.budget == budget && staging.Valid() && staging.reserved == 0 && staging.Others() == old(budget.used)
    ensures verdict == StoreDown ==> unchanged(wire)
    ensures verdict.Denied? ==>
              && policy.Some? && verdict.tag == Policy.Required(policy.value, scene.path) != Authz.ANONYMOUS
              && var (name, value) := Denial(policy.value, verdict.tag, scene.html, scene.path, scene.query);
                 wire.sent == [Sent(if scene.html then 302 else 401, old(wire.header).(fields := old(wire.header.fields)[name := [value]]))]
    ensures exit.Some? ==> (Hijacks(scene.calls) <= 1 ==> clean) && (clean ==> wire.AllFit(site)) && (exit == Some(Upgraded) && wire.AllFit(site) ==> clean)
    ensures var before := ResolveSteps(cfg, old(shared.steps), scene.key, scene.now, scene.turns);
      && before <= shared.steps && (!processed ==> shared.steps == before)
      && (processed ==>
            var own, live := shared.steps[|before|..], ResolvedLive(cfg, scene);
            && exit.Some? && !scene.handlerErr
            && (scene.key.Some? && scene.env.key != scene.key && scene.env.mint != scene.key ==> Informed(site, live, own, wire.sent, scene.key.value))
            && (WantsRevoke(site, Values(Stripped(site, handed), site.revoke)) ==> Honest(live, own, wire.sent, exit.value)))
  {
    upstream, exit, processed, clean, handed, staging := [], None, false, false, BARE, null;
    var live, resolveFailed;
    verdict, live, resolveFailed := Admit(site, cfg, policy, shared, scene.key, scene.path, scene.now, scene.turns);
    if verdict.Denied? { Deny(policy.value, wire, verdict.tag, scene.html, scene.path, scene.query); }
    if verdict != Admitted { return; }
    if scene.key.Some? { ResolvedPresents(cfg, old(shared.steps), scene); }
    assert HandleOf(live) == ResolvedLive(cfg, scene);
    upstream := Upstream.PrepareUpstream(site, scene.proxy, scene.cookies, if live == null then map[] else live.cookies);
    var e;
    e, processed, handed, clean, staging := Answer(site, Resolved(cfg, shared, live, scene.key.Some?, resolveFailed), wire, budget, scene);
    exit := Some(e);
  }

  // ---- a hijack repeated ---------------------------------------------------------------------------------

  /** A hijack that fails and sent nothing leaves the way open for another. */
  method FailedHijack(site: Site) returns (ic: Interceptor)
    ensures fresh(ic) && fresh(ic.wire) && fresh(ic.body) && fresh(ic.body.budget) && ic.site == site
    ensures ic.Valid() && ic.terminal && ic.wire.sent == [] && ic.wire.Open() && ic.Hijackable(0) && ic.informational == [] && !ic.wroteHeader
  {
    var wire := new Wire(BARE, true);
    var budget := new Budget(BODY_LIMIT);
    var body := new Body(budget);
    ic := new Interceptor(site, wire, body, false);
    assert ic.Hijackable(0);
    var _ := ic.Hijack(0, false);
  }

  /** The headers set after it go out as they are. */
  method RepeatedHijackLeaks(site: Site, h: Headers) returns (wire: Wire)
    requires !Outward(site, h)
    ensures wire.sent == [Sent(200, h)] && !wire.AllFit(site)
  {
    var ic := FailedHijack(site);
    wire := ic.wire;
    ic.WriteHeader(200, 0);
    ic.header := h;
    var _ := ic.Hijack(0, false);
    assert wire.sent[0] == Sent(200, h);
  }

  /** Before any status is written they stay pending, and the next write sends them. */
  method PendingHeadersLeak(site: Site, h: Headers, p: seq<Byte>, disk: Disk) returns (wire: Wire)
    requires !Outward(site, h)
    ensures !wire.AllFit(site)
  {
    var ic := FailedHijack(site);
    wire := ic.wire;
    ic.header := h;
    var _ := ic.Hijack(0, false);
    var _, _ := ic.Write(p, disk);
  }
}
