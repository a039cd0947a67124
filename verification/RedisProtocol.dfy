/** The protocol on top of Redis: requests that read rows of the keyspace and run
    scripts on it, while keys expire, do nothing the protocol cannot do. Whatever
    holds along every protocol run therefore holds for the Redis store. */
module RedisProtocol {
  import opened Stores
  import opened Sessions
  import opened Protocol
  import opened ProtocolSteps
  import opened ProtocolRuns
  import opened RedisStore
  import R = RedisRefinement
  import opened RedisRuns
  import C = CookieRuns

  /** The keyspace, and the requests in flight with what is known of identifiers. */
  datatype System = System(db: Db, w: World)

  /** An action, the server time at which its command runs, and the lifetime it passes. */
  datatype Tick = Tick(at: int, a: Action, ttl: int)

  /** The script an action runs, if it reaches the server. */
  function CallOf(cfg: Config, w: World, a: Action, ttl: int): Option<Call>
    requires Enabled(cfg, w, a)
  {
    match a
    case PutSession(r, fails) => if fails then None else Some(CreateSession(w.reqs[r].sid, w.reqs[r].x))
    case PutKey(r, fails) => if fails then None else Some(CreateKey(w.reqs[r].key, w.reqs[r].sid))
    case DeleteExpired(r, fails) => if fails then None else Some(DeleteCall(w.reqs[r].sid))
    case Touch(r, fails) =>
      if fails then None
      else var q := w.reqs[r]; Some(TouchCall(q.sid, q.key, q.at, LegacyRotation(cfg, q.x, q.at), ttl))
    case Commit(r, fails) => if fails then None else Some(CommitCall(w.reqs[r].h.sid, w.reqs[r].c, ttl))
    case Revoke(r, fails) => if fails then None else Some(DeleteCall(w.reqs[r].h.sid))
    case DeleteOwned(r, sid, fails) => if fails then None else Some(DeleteOwnedCall(w.reqs[r].owner, sid))
    case _ => None
  }

  /** What the request makes of the reply: a rejected script is a failed step. */
  function Answered(a: Action, code: int): Action {
    match a
    case PutKey(r, _) => PutKey(r, code != 1)
    case Touch(r, _) => Touch(r, code != 1)
    case Commit(r, _) => Commit(r, code != 1)
    case _ => a
  }

  /** What a request reads: the rows alive now. */
  ghost function Seen(sys: System, at: int): World { sys.w.(store := R.View(Evict(sys.db, at))) }

  /** An owner listing returns the whole set, stale members included. */
  ghost function Listed(sys: System, t: Tick): Action {
    if t.a.ListOwner? then ListOwner(t.a.owner, MembersOf(Evict(sys.db, t.at).owners, t.a.owner)) else t.a
  }

  /** Time does not run backwards, the proxy's clock is not ahead of the server's when a
      session is created, and expiry is left to the server. */
  ghost predicate Ticks(cfg: Config, sys: System, now: int, t: Tick) {
    && now <= t.at && !t.a.Expire? && Enabled(cfg, Seen(sys, t.at), t.a)
    && (t.a.PutSession? ==> sys.w.reqs[t.a.r].x.creation * 1000 <= t.at)
  }

  /** One step of the system: what the request does next follows from the rows it read
      and the reply it got. */
  ghost function Advance(cfg: Config, sys: System, t: Tick): System
    requires Enabled(cfg, Seen(sys, t.at), t.a)
  {
    var seen, d := Seen(sys, t.at), Evict(sys.db, t.at);
    var call := CallOf(cfg, seen, t.a, t.ttl);
    if call.None? then System(d, Next(cfg, seen, Listed(sys, t)))
    else
      var r := Script(d, t.at, Seconds(cfg.final), call.value);
      System(r.0, Next(cfg, seen, Answered(t.a, r.1)).(store := R.View(r.0)))
  }

  /** The two protocol steps one step of the system amounts to. */
  ghost function Shadow(cfg: Config, sys: System, t: Tick): seq<Action>
    requires Enabled(cfg, Seen(sys, t.at), t.a)
  {
    var seen, d := Seen(sys, t.at), Evict(sys.db, t.at);
    var call := CallOf(cfg, seen, t.a, t.ttl);
    [Expire(R.Over(sys.db, t.at)),
     if call.None? then Listed(sys, t) else Answered(t.a, Script(d, t.at, Seconds(cfg.final), call.value).1)]
  }

  /** The keyspace is in order and represents the store of the protocol's world. */
  ghost predicate Linked(cfg: Config, sys: System, now: int) {
    R.Orderly(sys.db, now, Seconds(cfg.final)) && R.View(sys.db) == sys.w.store && Inv(cfg, sys.w)
  }

  ghost predicate Sane(cfg: Config) { Seconds(cfg.inactive) >= 1 && Seconds(cfg.final) >= 1 }

  // ---- one step --------------------------------------------------------------------------

  lemma SeenIsExpired(cfg: Config, sys: System, now: int, at: int)
    requires Linked(cfg, sys, now) && now <= at
    ensures Seen(sys, at) == Next(cfg, sys.w, Expire(R.Over(sys.db, at))) && Inv(cfg, Seen(sys, at))
    ensures R.Orderly(Evict(sys.db, at), at, Seconds(cfg.final))
  {
    R.EvictOk(sys.db, now, at, Seconds(cfg.final));
    R.EvictIsExpire(sys.db, now, at, Seconds(cfg.final));
    Step(cfg, sys.w, Expire(R.Over(sys.db, at)));
  }

  /** The protocol calls the store the way the scripts need it. */
  lemma CallsAreLegal(cfg: Config, w: World, at: int, a: Action, ttl: int)
    requires Sane(cfg) && Inv(cfg, w) && Enabled(cfg, w, a) && CallOf(cfg, w, a, ttl).Some?
    requires a.PutSession? ==> w.reqs[a.r].x.creation * 1000 <= at
    ensures Legal(w.store, at, Seconds(cfg.final), CallOf(cfg, w, a, ttl).value)
  {
  }

  /** What the plain operation does is what the protocol step does. */
  lemma PlainIsNext(cfg: Config, w: World, a: Action, ttl: int)
    requires Enabled(cfg, w, a) && CallOf(cfg, w, a, ttl).Some?
    ensures var p := Plain(w.store, CallOf(cfg, w, a, ttl).value);
            Enabled(cfg, w, Answered(a, p.1)) && Next(cfg, w, Answered(a, p.1)).store == p.0
  {
  }

  lemma LateIsRejected(cfg: Config, w: World, db: Db, at: int, a: Action, ttl: int, code: int)
    requires Enabled(cfg, w, a) && CallOf(cfg, w, a, ttl).Some? && Late(db, at, CallOf(cfg, w, a, ttl).value) && code != 1
    ensures Enabled(cfg, w, Answered(a, code)) && Next(cfg, w, Answered(a, code)).store == w.store
  {
  }

  /** One step of the system is an expiry and one step of the protocol. */
  lemma AdvanceIsShadow(cfg: Config, sys: System, now: int, t: Tick)
    requires Sane(cfg) && Linked(cfg, sys, now) && Ticks(cfg, sys, now, t)
    ensures var (u, s) := (Advance(cfg, sys, t), Shadow(cfg, sys, t));
            Linked(cfg, u, t.at) && Enabled(cfg, Seen(sys, t.at), s[1]) && u.w == Next(cfg, Seen(sys, t.at), s[1])
  {
    var seen, d, final := Seen(sys, t.at), Evict(sys.db, t.at), Seconds(cfg.final);
    SeenIsExpired(cfg, sys, now, t.at);
    var call := CallOf(cfg, seen, t.a, t.ttl);
    if call.Some? {
      CallsAreLegal(cfg, seen, t.at, t.a, t.ttl);
      ScriptRefines(d, t.at, final, call.value);
      PlainIsNext(cfg, seen, t.a, t.ttl);
      var r := Script(d, t.at, final, call.value);
      if Late(d, t.at, call.value) && r.0 == d && r.1 != 1 { LateIsRejected(cfg, seen, d, t.at, t.a, t.ttl, r.1); }
    } else {
      QuietStep(cfg, sys, t);
    }
    Step(cfg, seen, Shadow(cfg, sys, t)[1]);
  }

  lemma QuietStep(cfg: Config, sys: System, t: Tick)
    requires Enabled(cfg, Seen(sys, t.at), t.a) && !t.a.Expire? && CallOf(cfg, Seen(sys, t.at), t.a, t.ttl).None?
    ensures Enabled(cfg, Seen(sys, t.at), Listed(sys, t)) && Next(cfg, Seen(sys, t.at), Listed(sys, t)).store == Seen(sys, t.at).store
  {
  }

  // ---- runs ----------------------------------------------------------------------------------

  ghost predicate Feasible(cfg: Config, sys: System, now: int, run: seq<Tick>)
    decreases |run|
  {
    run == [] || (Ticks(cfg, sys, now, run[0]) && Feasible(cfg, Advance(cfg, sys, run[0]), run[0].at, run[1..]))
  }

  ghost function Reach(cfg: Config, sys: System, now: int, run: seq<Tick>): System
    requires Feasible(cfg, sys, now, run)
    decreases |run|
  {
    if run == [] then sys else Reach(cfg, Advance(cfg, sys, run[0]), run[0].at, run[1..])
  }

  ghost function Shadows(cfg: Config, sys: System, now: int, run: seq<Tick>): seq<Action>
    requires Feasible(cfg, sys, now, run)
    decreases |run|
  {
    if run == [] then [] else Shadow(cfg, sys, run[0]) + Shadows(cfg, Advance(cfg, sys, run[0]), run[0].at, run[1..])
  }

  lemma Prefixed(cfg: Config, w: World, s: seq<Action>, rest: seq<Action>)
    requires |s| == 2 && Enabled(cfg, w, s[0]) && Enabled(cfg, Next(cfg, w, s[0]), s[1])
    requires Possible(cfg, Next(cfg, Next(cfg, w, s[0]), s[1]), rest)
    ensures Possible(cfg, w, s + rest) && Run(cfg, w, s + rest) == Run(cfg, Next(cfg, Next(cfg, w, s[0]), s[1]), rest)
  {
  }

  lemma AdvanceIsLinked(cfg: Config, sys: System, now: int, t: Tick)
    requires Sane(cfg) && Linked(cfg, sys, now) && Ticks(cfg, sys, now, t)
    ensures Linked(cfg, Advance(cfg, sys, t), t.at)
  {
    AdvanceIsShadow(cfg, sys, now, t);
  }

  function EndTime(now: int, run: seq<Tick>): int { if run == [] then now else run[|run| - 1].at }

  lemma {:induction false} ReachIsLinked(cfg: Config, sys: System, now: int, run: seq<Tick>)
    requires Sane(cfg) && Linked(cfg, sys, now) && Feasible(cfg, sys, now, run)
    ensures Linked(cfg, Reach(cfg, sys, now, run), EndTime(now, run))
    decreases |run|
  {
    if run != [] {
      AdvanceIsLinked(cfg, sys, now, run[0]);
      ReachIsLinked(cfg, Advance(cfg, sys, run[0]), run[0].at, run[1..]);
      assert EndTime(now, run) == EndTime(run[0].at, run[1..]);
    }
  }

  /** Every run on Redis is a run of the protocol, step by step, with expiry as
      deletion of whole sessions: same requests, same answers, same store. */
  lemma {:induction false} RedisRunIsRun(cfg: Config, sys: System, now: int, run: seq<Tick>)
    requires Sane(cfg) && Linked(cfg, sys, now) && Feasible(cfg, sys, now, run)
    ensures Possible(cfg, sys.w, Shadows(cfg, sys, now, run))
    ensures Reach(cfg, sys, now, run).w == Run(cfg, sys.w, Shadows(cfg, sys, now, run))
    ensures R.View(Reach(cfg, sys, now, run).db) == Reach(cfg, sys, now, run).w.store
    decreases |run|
  {
    ReachIsLinked(cfg, sys, now, run);
    if run != [] { FirstTick(cfg, sys, now, run); }
  }

  lemma {:induction false} FirstTick(cfg: Config, sys: System, now: int, run: seq<Tick>)
    requires Sane(cfg) && Linked(cfg, sys, now) && Feasible(cfg, sys, now, run) && run != []
    ensures Possible(cfg, sys.w, Shadows(cfg, sys, now, run))
    ensures Reach(cfg, sys, now, run).w == Run(cfg, sys.w, Shadows(cfg, sys, now, run))
    decreases |run|, 0
  {
    var t := run[0];
    var u := Advance(cfg, sys, t);
    AdvanceIsShadow(cfg, sys, now, t);
    SeenIsExpired(cfg, sys, now, t.at);
    RedisRunIsRun(cfg, u, t.at, run[1..]);
    Prefixed(cfg, sys.w, Shadow(cfg, sys, t), Shadows(cfg, u, t.at, run[1..]));
  }

  /** It starts with an empty server. */
  lemma FreshIsLinked(cfg: Config, now: int)
    ensures Linked(cfg, System(NOTHING, INITIAL), now)
  {
  }

  // ---- two consequences ----------------------------------------------------------------------------

  /** A key delivered to a client means the same session with the same rights for as
      long as Redis keeps it, over every run on Redis. */
  lemma RedisRightsAreConstant(cfg: Config, sys: System, now: int, run: seq<Tick>, k: Id)
    requires Sane(cfg) && Linked(cfg, sys, now) && Feasible(cfg, sys, now, run)
    requires IsPublic(sys.w, k) && k in sys.db.keys && k in Reach(cfg, sys, now, run).db.keys
    ensures var db, id := Reach(cfg, sys, now, run).db, sys.db.keys[k].v;
            && db.keys[k].v == id && id in sys.db.sess && id in db.sess && SameRights(cfg, sys.db.sess[id].v, db.sess[id].v)
  {
    RedisRunIsRun(cfg, sys, now, run);
    var u := Reach(cfg, sys, now, run);
    assert R.View(sys.db).keys[k] == sys.db.keys[k].v && k in R.View(u.db).keys;
    RightsAreConstant(cfg, sys.w, Shadows(cfg, sys, now, run), k);
  }

  /** Along every run on Redis the two hashes of a session have the same fields, and every
      digest is that of the value stored next to it. */
  lemma RedisDigestsMatch(cfg: Config, now: int, run: seq<Tick>, id: Id, n: string)
    requires Sane(cfg) && Feasible(cfg, System(NOTHING, INITIAL), now, run)
    ensures var db := Reach(cfg, System(NOTHING, INITIAL), now, run).db;
            && (n in HashOf(db.sha, id) <==> n in HashOf(db.attr, id))
            && (n in HashOf(db.sha, id) ==> HashOf(db.sha, id)[n] == cfg.hash(HashOf(db.attr, id)[n]))
  {
    var sys := System(NOTHING, INITIAL);
    FreshIsLinked(cfg, now);
    RedisRunIsRun(cfg, sys, now, run);
    C.DigestsMatch(cfg, Shadows(cfg, sys, now, run), id, n);
    ViewedRows(Reach(cfg, sys, now, run).db, id);
  }

  lemma ViewedRows(db: Db, id: Id)
    ensures RowOf(R.View(db).cookies, id) == HashOf(db.attr, id) && RowOf(R.View(db).shas, id) == HashOf(db.sha, id)
  {
  }

  /** Along the run the session is never bound to anybody else, and the sweep's delete
      of it does not fail. */
  ghost predicate Quiet(cfg: Config, sys: System, now: int, run: seq<Tick>, r: nat, o: int, id: Id)
    requires Feasible(cfg, sys, now, run)
    decreases |run|
  {
    && (id in sys.db.sess ==> sys.db.sess[id].v.owner == o)
    && (run != [] ==> run[0].a != DeleteOwned(r, id, true) && Quiet(cfg, Advance(cfg, sys, run[0]), run[0].at, run[1..], r, o, id))
  }

  lemma {:induction false} QuietIsUndisturbed(cfg: Config, sys: System, now: int, run: seq<Tick>, r: nat, o: int, id: Id)
    requires Sane(cfg) && Linked(cfg, sys, now) && Feasible(cfg, sys, now, run) && Quiet(cfg, sys, now, run, r, o, id)
    ensures Possible(cfg, sys.w, Shadows(cfg, sys, now, run)) && Undisturbed(cfg, sys.w, Shadows(cfg, sys, now, run), r, o, id)
    decreases |run|
  {
    assert id in sys.w.store.sessions ==> sys.w.store.sessions[id].owner == o;
    if run != [] {
      var t := run[0];
      var u := Advance(cfg, sys, t);
      AdvanceIsShadow(cfg, sys, now, t);
      SeenIsExpired(cfg, sys, now, t.at);
      QuietIsUndisturbed(cfg, u, t.at, run[1..], r, o, id);
      UndisturbedFirst(cfg, sys.w, Shadow(cfg, sys, t), Shadows(cfg, u, t.at, run[1..]), r, o, id);
    }
  }

  lemma UndisturbedFirst(cfg: Config, w: World, s: seq<Action>, rest: seq<Action>, r: nat, o: int, id: Id)
    requires |s| == 2 && s[0].Expire? && s[1] != DeleteOwned(r, id, true) && Enabled(cfg, Next(cfg, w, s[0]), s[1])
    requires Possible(cfg, Next(cfg, Next(cfg, w, s[0]), s[1]), rest)
    requires Undisturbed(cfg, Next(cfg, Next(cfg, w, s[0]), s[1]), rest, r, o, id)
    requires id in w.store.sessions ==> w.store.sessions[id].owner == o
    ensures Possible(cfg, w, s + rest) && Undisturbed(cfg, w, s + rest, r, o, id)
  {
    assert (s + rest)[1..] == [s[1]] + rest && ([s[1]] + rest)[1..] == rest;
  }

  /** Logout everywhere is complete on Redis: once a sweep is done with a session that
      stayed bound to its owner, the session is gone, whatever expired meanwhile. */
  lemma RedisSweepIsComplete(cfg: Config, sys: System, now: int, run: seq<Tick>, r: nat, o: int, id: Id)
    requires Sane(cfg) && Linked(cfg, sys, now) && Feasible(cfg, sys, now, run) && Quiet(cfg, sys, now, run, r, o, id)
    requires r in sys.w.reqs && sys.w.reqs[r].Revoking? && sys.w.reqs[r].owner == o && id in sys.w.reqs[r].todo && id in sys.db.sess
    requires var t := Reach(cfg, sys, now, run).w; r in t.reqs && t.reqs[r].Revoking? ==> id !in t.reqs[r].todo
    ensures id !in Reach(cfg, sys, now, run).db.sess
  {
    RedisRunIsRun(cfg, sys, now, run);
    QuietIsUndisturbed(cfg, sys, now, run, r, o, id);
    assert id in R.View(sys.db).sessions;
    SweepIsComplete(cfg, sys.w, Shadows(cfg, sys, now, run), r, o, id);
    assert id !in R.View(Reach(cfg, sys, now, run).db).sessions;
  }
}
