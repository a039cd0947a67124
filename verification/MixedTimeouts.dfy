/** Proxies with different final timeouts on one Redis store: a session list lives as
    long as the binding made last says, so a session bound earlier can outlive it. */
module MixedTimeouts {
  import opened Stores
  import opened Sessions
  import opened RedisStore
  import opened RedisRuns

  /** A call made at a server time by a proxy with its own final timeout. */
  datatype Step = Step(at: int, final: int, call: Call)

  function StepTo(db: Db, s: Step): Db { Script(Evict(db, s.at), s.at, s.final, s.call).0 }

  function RunSteps(db: Db, run: seq<Step>): Db
    decreases |run|
  {
    if run == [] then db else RunSteps(StepTo(db, run[0]), run[1..])
  }

  function EndOf(now: int, run: seq<Step>): int { if run == [] then now else run[|run| - 1].at }

  predicate Ordered(now: int, run: seq<Step>)
    decreases |run|
  {
    run == [] || (now <= run[0].at && Ordered(run[0].at, run[1..]))
  }

  predicate Binds(s: Step, o: int) { s.call.CommitCall? && s.call.c.setOwner && s.call.c.owner == o }

  /** Time goes on, the session is not created again, and whoever is bound to the owner
      leaves the list until `limit` at least. */
  predicate Continues(now: int, run: seq<Step>, i: Id, o: int, limit: int) {
    && Ordered(now, run)
    && (forall s <- run :: !(s.call.CreateSession? && s.call.id == i) && (Binds(s, o) ==> limit <= s.at + s.final * 1000))
  }

  /** If the session is alive and the owner's, the owner's list shows it. */
  predicate Listed(db: Db, at: int, i: Id, o: int) {
    var e := Evict(db, at);
    i in e.sess && e.sess[i].v.owner == o ==> i in MembersOf(e.owners, o)
  }

  function FinalLimit(x: Session): int { (x.creation + x.final) * 1000 }

  // ---- a list that lasts ------------------------------------------------------------------

  predicate OnList(t: map<int, Row<set<Id>>>, i: Id, o: int, limit: int) {
    o in t && i in t[o].v && (t[o].deadline.Some? ==> limit <= t[o].deadline.value)
  }

  /** The session ends by `limit`, whatever happens, and its owner's list does not. */
  predicate Lasts(db: Db, i: Id, o: int, limit: int) {
    i in db.sess ==>
      var row := db.sess[i];
      && row.v.final > 0 && FinalLimit(row.v) <= limit && row.deadline.Some? && row.deadline.value <= limit
      && (row.v.owner == o ==> OnList(db.owners, i, o, limit))
  }

  lemma EvictLasts(db: Db, at: int, i: Id, o: int, limit: int)
    requires Lasts(db, i, o, limit)
    ensures Lasts(Evict(db, at), i, o, limit) && Listed(db, at, i, o)
  {
  }

  lemma RehomedKeeps(t: map<int, Row<set<Id>>>, now: int, id: Id, from: int, to: int, ttl: int, i: Id, o: int, limit: int)
    requires from != to && (to == o ==> limit <= now + ttl)
    requires if id == i then to == o && ttl > 0 else OnList(t, i, o, limit)
    ensures OnList(Rehomed(t, now, id, from, to, ttl), i, o, limit)
  {
    var added := SAdd(t, to, id);
    var kept := if ttl > 0 then PExpire(added, to, now + ttl) else added;
    assert OnList(kept, i, o, limit);
    if from == o && id != i { assert i in kept[o].v - {id}; }
  }

  lemma CommitLasts(db: Db, now: int, final: int, id: Id, c: Controls, ttl: int, i: Id, o: int, limit: int)
    requires Lasts(db, i, o, limit) && (c.setOwner && c.owner == o ==> limit <= now + final * 1000)
    ensures Lasts(RApply(db, now, id, c, ttl, final * 1000).0, i, o, limit)
  {
    var d := RApply(db, now, id, c, ttl, final * 1000).0;
    if d != db && i in db.sess {
      var from, row := db.sess[id].v.owner, d.sess[i];
      assert i != id ==> row == db.sess[i];
      assert row.v.final == db.sess[i].v.final && row.v.creation == db.sess[i].v.creation && row.deadline.Some? && row.deadline.value <= limit;
      if row.v.owner == o && c.setOwner && from != c.owner {
        RehomedKeeps(db.owners, now, id, from, c.owner, final * 1000, i, o, limit);
      }
    }
  }

  lemma TouchLasts(db: Db, now: int, id: Id, key: Id, access: int, rotation: int, ttl: int, i: Id, o: int, limit: int)
    requires Lasts(db, i, o, limit)
    ensures Lasts(RTouch(db, now, id, key, access, rotation, ttl).0, i, o, limit)
  {
  }

  lemma DeleteLasts(db: Db, id: Id, owner: int, i: Id, o: int, limit: int)
    requires Lasts(db, i, o, limit)
    ensures Lasts(RDelete(db, id), i, o, limit) && Lasts(RDeleteByOwner(db, owner, id).0, i, o, limit)
  {
    if i in db.sess && i != id && OnList(db.owners, i, o, limit) { assert i in db.owners[o].v - {id}; }
  }

  lemma ScriptLasts(db: Db, s: Step, i: Id, o: int, limit: int)
    requires Lasts(db, i, o, limit) && !(s.call.CreateSession? && s.call.id == i) && (Binds(s, o) ==> limit <= s.at + s.final * 1000)
    ensures Lasts(Script(db, s.at, s.final, s.call).0, i, o, limit)
  {
    match s.call
    case CreateSession(_, _) =>
    case CreateKey(_, _) =>
    case TouchCall(id, key, access, rotation, ttl) => TouchLasts(db, s.at, id, key, access, rotation, ttl, i, o, limit);
    case CommitCall(id, c, ttl) => CommitLasts(db, s.at, s.final, id, c, ttl, i, o, limit);
    case DeleteCall(id) => DeleteLasts(db, id, 0, i, o, limit);
    case DeleteOwnedCall(owner, id) => DeleteLasts(db, id, owner, i, o, limit);
  }

  lemma {:induction false} RunLasts(db: Db, now: int, run: seq<Step>, i: Id, o: int, limit: int)
    requires Lasts(db, i, o, limit) && Continues(now, run, i, o, limit)
    ensures Lasts(RunSteps(db, run), i, o, limit)
    decreases |run|
  {
    if run != [] {
      var s := run[0];
      assert s in run;
      EvictLasts(db, s.at, i, o, limit);
      ScriptLasts(Evict(db, s.at), s, i, o, limit);
      assert forall q <- run[1..] :: q in run;
      RunLasts(StepTo(db, s), s.at, run[1..], i, o, limit);
    }
  }

  // ---- a list that does not ------------------------------------------------------------------

  /** The session has its key, and was last used by a proxy whose clock shows the server's second. */
  predicate InUse(db: Db, now: int, i: Id, k: Id) {
    && i in db.sess && k in db.keys && db.keys[k].v == i && db.keys[k].deadline == db.sess[i].deadline && db.sess[i].deadline.Some?
    && var x, until := db.sess[i].v, db.sess[i].deadline.value;
       && x.inactive >= 1 && x.final >= 1 && x.lastAccess * 1000 <= now <= until && (x.lastAccess + 1) * 1000 <= until
  }

  /** Such a proxy touches an unexpired session, with the lifetime the manager passes. */
  predicate TouchInStep(db: Db, s: Step, i: Id, k: Id) {
    && i in db.sess && Alive(db.sess[i], s.at) && !Expired(db.sess[i].v, s.at / 1000)
    && s.call == TouchCall(i, k, s.at / 1000, db.sess[i].v.lastRotation, Ttl(db.sess[i].v, s.at / 1000) * 1000)
  }

  /** What the manager commits for a response that sets a cookie. */
  function CookieCommit(k: Id, now: int): Controls {
    Controls(false, 0, false, "", now, 0, k, k, false, [CookieMutation("name", "value", "digest", false)])
  }

  lemma CookieCommitIsDecided(cfg: Config, h: Handle, x: Session, now: int, mint: Id)
    requires cfg.hash("value") == "digest" && (h.rewrite || !RotationDue(cfg, x, now))
    ensures Decide(cfg, h, x, now, Ask(None, None, false, true, [CookieWrite("name", "value", false)]), mint) == CookieCommit(h.key, now)
  {
  }

  /** Such a proxy commits a cookie; the manager does not look at expiry here, as the
      request resolved the session earlier. */
  predicate CommitInStep(db: Db, s: Step, i: Id, k: Id) {
    i in db.sess && Alive(db.sess[i], s.at) && s.call == CommitCall(i, CookieCommit(k, s.at / 1000), Ttl(db.sess[i].v, s.at / 1000) * 1000)
  }

  /** Touches only, or commits only. */
  predicate Uses(db: Db, run: seq<Step>, i: Id, k: Id, touch: bool)
    decreases |run|
  {
    run == [] ||
    ((if touch then TouchInStep(db, run[0], i, k) else CommitInStep(db, run[0], i, k)) && Uses(StepTo(db, run[0]), run[1..], i, k, touch))
  }

  /** A touch can still come in a later second than the last access and find the session unexpired. */
  predicate Touchable(x: Session, now: int) { x.inactive >= 2 && now / 1000 < x.lastAccess + x.inactive }

  /** The next use in step: at once, or when the second of the last access is over. */
  function NextUse(db: Db, now: int, i: Id, k: Id, touch: bool): Step
    requires i in db.sess
  {
    var x := db.sess[i].v;
    var at := Max(now, (x.lastAccess + 1) * 1000);
    Step(at, x.final, if touch then TouchCall(i, k, at / 1000, x.lastRotation, Ttl(x, at / 1000) * 1000)
                      else CommitCall(i, CookieCommit(k, at / 1000), Ttl(x, at / 1000) * 1000))
  }

  lemma NextGrant(db: Db, now: int, i: Id, k: Id)
    requires InUse(db, now, i, k) && db.sess[i].deadline.value < FinalLimit(db.sess[i].v)
    ensures var x, at := db.sess[i].v, Max(now, (db.sess[i].v.lastAccess + 1) * 1000);
            && at / 1000 > x.lastAccess && at / 1000 < x.creation + x.final && at / 1000 * 1000 <= at <= db.sess[i].deadline.value && Ttl(x, at / 1000) > 0
            && RedisStore.Granted(x, at / 1000, Ttl(x, at / 1000) * 1000, at) == Least((at / 1000 + x.inactive) * 1000, FinalLimit(x)) - at > 0
            && (at / 1000 + 1) * 1000 <= Least((at / 1000 + x.inactive) * 1000, FinalLimit(x))
  {
    var x, at := db.sess[i].v, Max(now, (db.sess[i].v.lastAccess + 1) * 1000);
    var a := at / 1000;
    assert a * 1000 <= at < (a + 1) * 1000;
  }

  /** What a use in step does: it extends the session up to its final limit and keeps it in use. */
  predicate Extends(db: Db, d: Db, at: int, i: Id, k: Id) {
    && i in db.sess && InUse(d, at, i, k) && FinalLimit(d.sess[i].v) == FinalLimit(db.sess[i].v) && d.owners == Living(db.owners, at)
    && d.sess[i].v.owner == db.sess[i].v.owner && d.sess[i].v.lastAccess > db.sess[i].v.lastAccess && d.sess[i].v.inactive == db.sess[i].v.inactive
    && at / 1000 == d.sess[i].v.lastAccess
  }

  lemma TouchExtends(db: Db, now: int, i: Id, k: Id)
    requires InUse(db, now, i, k) && db.sess[i].deadline.value < FinalLimit(db.sess[i].v) && Touchable(db.sess[i].v, now)
    ensures var s := NextUse(db, now, i, k, true); now <= s.at && TouchInStep(db, s, i, k) && Extends(db, StepTo(db, s), s.at, i, k)
  {
    NextGrant(db, now, i, k);
    var e := Evict(db, NextUse(db, now, i, k, true).at);
    assert i in e.sess && k in e.keys;
  }

  /** A cookie commit refreshes the session's row and its key and leaves the owner lists alone. */
  lemma CookieCommitted(e: Db, at: int, i: Id, k: Id, ttl: int, ownerTtl: int)
    requires i in e.sess && k in e.keys && e.keys[k].v == i && ttl > 0 && RedisStore.Granted(e.sess[i].v, at / 1000, ttl, at) > 0
    ensures var d, until := RApply(e, at, i, CookieCommit(k, at / 1000), ttl, ownerTtl).0, Some(at + RedisStore.Granted(e.sess[i].v, at / 1000, ttl, at));
            && i in d.sess && d.sess[i] == Row(ControlledSession(e.sess[i].v, CookieCommit(k, at / 1000)), until)
            && k in d.keys && d.keys[k] == Row(i, until) && d.owners == e.owners
  {
  }

  lemma CommitExtends(db: Db, now: int, i: Id, k: Id)
    requires InUse(db, now, i, k) && db.sess[i].deadline.value < FinalLimit(db.sess[i].v)
    ensures var s := NextUse(db, now, i, k, false); now <= s.at && CommitInStep(db, s, i, k) && Extends(db, StepTo(db, s), s.at, i, k)
  {
    NextGrant(db, now, i, k);
    var s, x := NextUse(db, now, i, k, false), db.sess[i].v;
    CookieCommitted(Evict(db, s.at), s.at, i, k, Ttl(x, s.at / 1000) * 1000, x.final * 1000);
  }

  /** Touched or committed to again and again, the session outlives a list that ends
      before its final limit; touches do as long as they come in time. */
  lemma {:induction false} OutlivesList(db: Db, now: int, i: Id, k: Id, o: int, touch: bool) returns (run: seq<Step>, at: int)
    requires InUse(db, now, i, k) && db.sess[i].v.owner == o && o in db.owners && db.owners[o].deadline.Some?
    requires db.owners[o].deadline.value < Max(db.sess[i].deadline.value, FinalLimit(db.sess[i].v))
    requires touch ==> Touchable(db.sess[i].v, now)
    ensures Ordered(now, run) && Uses(db, run, i, k, touch) && EndOf(now, run) <= at && !Listed(RunSteps(db, run), at, i, o)
    decreases db.owners[o].deadline.value - db.sess[i].v.lastAccess * 1000
  {
    var until, end := db.sess[i].deadline.value, db.owners[o].deadline.value;
    if until > end {
      run, at := [], until;
      assert i in Evict(db, at).sess && o !in Evict(db, at).owners;
    } else {
      var s := NextUse(db, now, i, k, touch);
      if touch { TouchExtends(db, now, i, k); } else { CommitExtends(db, now, i, k); }
      assert s.at <= until;
      var rest;
      rest, at := OutlivesList(StepTo(db, s), s.at, i, k, o, touch);
      run := [s] + rest;
      assert run[1..] == rest;
    }
  }

  // ---- exactly when ------------------------------------------------------------------------------

  /** A commit that binds session `id` to owner `to` under a final timeout. */
  predicate Rebinds(db: Db, now: int, id: Id, c: Controls, ttl: int, final: int, to: int) {
    && RApply(db, now, id, c, ttl, final * 1000).1 == 1 && c.setOwner && c.owner == to && db.sess[id].v.owner != to
    && to > 0 && final > 0
  }

  lemma RebindList(db: Db, now: int, id: Id, c: Controls, ttl: int, final: int, to: int, i: Id)
    requires Rebinds(db, now, id, c, ttl, final, to) && i in db.sess && i != id && i in MembersOf(db.owners, to)
    ensures var d := RApply(db, now, id, c, ttl, final * 1000).0;
            d.sess[i] == db.sess[i] && to in d.owners && i in d.owners[to].v && d.owners[to].deadline == Some(now + final * 1000)
  {
  }

  /** Left alone, a session bound earlier is listed for as long as it lives if and only
      if it ends by the deadline the new binding sets. */
  lemma ListedIffEndsFirst(db: Db, now: int, id: Id, c: Controls, ttl: int, final: int, to: int, i: Id)
    requires Rebinds(db, now, id, c, ttl, final, to) && i in db.sess && i != id && i in MembersOf(db.owners, to)
    requires db.sess[i].v.owner == to && db.sess[i].deadline.Some?
    ensures var d := RApply(db, now, id, c, ttl, final * 1000).0;
            (forall at :: now <= at ==> Listed(d, at, i, to)) <==> db.sess[i].deadline.value <= now + final * 1000
  {
    RebindList(db, now, id, c, ttl, final, to, i);
    var d, until := RApply(db, now, id, c, ttl, final * 1000).0, db.sess[i].deadline.value;
    if now + final * 1000 < until {
      assert i in Evict(d, until).sess && to !in Evict(d, until).owners;
      assert !Listed(d, until, i, to);
    }
  }

  /** On every continuation in which later bindings leave the list until `limit`, and at
      any time, the session is listed while it is alive and the owner's. */
  ghost predicate StaysListed(db: Db, now: int, i: Id, o: int, limit: int) {
    forall run, at :: Continues(now, run, i, o, limit) && EndOf(now, run) <= at ==> Listed(RunSteps(db, run), at, i, o)
  }

  /** A session in use stays on its owner's list along every such continuation if and only
      if neither its deadline nor its final limit lies beyond the deadline the new binding
      sets; otherwise responses that set a cookie take it off the list alive. */
  lemma StaysListedIff(db: Db, now: int, id: Id, c: Controls, ttl: int, final: int, to: int, i: Id, k: Id)
    requires Rebinds(db, now, id, c, ttl, final, to) && i in db.sess && i != id && i in MembersOf(db.owners, to)
    requires db.sess[i].v.owner == to && InUse(RApply(db, now, id, c, ttl, final * 1000).0, now, i, k)
    ensures var d, limit := RApply(db, now, id, c, ttl, final * 1000).0, Max(db.sess[i].deadline.value, FinalLimit(db.sess[i].v));
            StaysListed(d, now, i, to, limit) <==> limit <= now + final * 1000
  {
    RebindList(db, now, id, c, ttl, final, to, i);
    var d, limit := RApply(db, now, id, c, ttl, final * 1000).0, Max(db.sess[i].deadline.value, FinalLimit(db.sess[i].v));
    if limit <= now + final * 1000 {
      forall run, at | Continues(now, run, i, to, limit) && EndOf(now, run) <= at ensures Listed(RunSteps(d, run), at, i, to) {
        RunLasts(d, now, run, i, to, limit);
        EvictLasts(RunSteps(d, run), at, i, to, limit);
      }
    } else {
      var run, at := OutlivesList(d, now, i, k, to, false);
      UsesContinue(d, now, run, i, k, false, to, limit);
      assert Continues(now, run, i, to, limit) && !Listed(RunSteps(d, run), at, i, to);
    }
  }

  lemma {:induction false} UsesContinue(db: Db, now: int, run: seq<Step>, i: Id, k: Id, touch: bool, o: int, limit: int)
    requires Ordered(now, run) && Uses(db, run, i, k, touch)
    ensures Continues(now, run, i, o, limit)
    decreases |run|
  {
    if run != [] {
      UsesContinue(StepTo(db, run[0]), run[0].at, run[1..], i, k, touch, o, limit);
      assert forall s <- run :: s == run[0] || s in run[1..];
    }
  }

  // ---- touches alone -----------------------------------------------------------------------------

  /** Listed while alive whatever touches the manager makes of the session. */
  ghost predicate ListedUnderTouches(db: Db, now: int, i: Id, k: Id, o: int) {
    forall run, at :: Ordered(now, run) && Uses(db, run, i, k, true) && EndOf(now, run) <= at ==> Listed(RunSteps(db, run), at, i, o)
  }

  /** The session ends at `until` and its owner's list does not end before. */
  predicate EndsAt(db: Db, i: Id, o: int, until: int) {
    i in db.sess ==> db.sess[i].deadline == Some(until) && (db.sess[i].v.owner == o ==> OnList(db.owners, i, o, until))
  }

  /** A session with a one-second inactivity timeout, or one in the second in which it
      expires, is not extended by any touch. */
  lemma TouchesIdle(db: Db, now: int, s: Step, i: Id, k: Id, o: int, until: int)
    requires EndsAt(db, i, o, until) && TouchInStep(db, s, i, k) && now <= s.at && !Touchable(db.sess[i].v, now)
    ensures EndsAt(StepTo(db, s), i, o, until) && (i in StepTo(db, s).sess ==> !Touchable(StepTo(db, s).sess[i].v, s.at))
  {
    assert now / 1000 <= s.at / 1000;
    assert s.at / 1000 <= db.sess[i].v.lastAccess;
  }

  lemma {:induction false} RunIdle(db: Db, now: int, run: seq<Step>, i: Id, k: Id, o: int, until: int)
    requires EndsAt(db, i, o, until) && Ordered(now, run) && Uses(db, run, i, k, true) && (i in db.sess ==> !Touchable(db.sess[i].v, now))
    ensures EndsAt(RunSteps(db, run), i, o, until)
    decreases |run|
  {
    if run != [] {
      TouchesIdle(db, now, run[0], i, k, o, until);
      RunIdle(StepTo(db, run[0]), run[0].at, run[1..], i, k, o, until);
    }
  }

  /** With touches alone, a session in use stays listed if and only if it ends by the
      list's deadline: at its final limit if touches can extend it, and otherwise when its
      rows end now. */
  lemma TouchesIff(db: Db, now: int, i: Id, k: Id, o: int)
    requires InUse(db, now, i, k) && db.sess[i].v.owner == o && o in db.owners && i in db.owners[o].v && db.owners[o].deadline.Some?
    ensures var row := db.sess[i];
            ListedUnderTouches(db, now, i, k, o) <==>
            (if Touchable(row.v, now) then Max(row.deadline.value, FinalLimit(row.v)) else row.deadline.value) <= db.owners[o].deadline.value
  {
    var row, end := db.sess[i], db.owners[o].deadline.value;
    var limit := if Touchable(row.v, now) then Max(row.deadline.value, FinalLimit(row.v)) else row.deadline.value;
    if limit <= end {
      forall run, at | Ordered(now, run) && Uses(db, run, i, k, true) && EndOf(now, run) <= at ensures Listed(RunSteps(db, run), at, i, o) {
        if Touchable(row.v, now) {
          UsesContinue(db, now, run, i, k, true, o, limit);
          RunLasts(db, now, run, i, o, limit);
          EvictLasts(RunSteps(db, run), at, i, o, limit);
        } else {
          RunIdle(db, now, run, i, k, o, limit);
        }
      }
    } else if Touchable(row.v, now) {
      var run, at := OutlivesList(db, now, i, k, o, true);
      assert Ordered(now, run) && Uses(db, run, i, k, true) && !Listed(RunSteps(db, run), at, i, o);
    } else {
      assert i in Evict(db, limit).sess && o !in Evict(db, limit).owners;
      assert Ordered(now, []) && Uses(db, [], i, k, true) && !Listed(RunSteps(db, []), limit, i, o);
    }
  }

  // ---- an input ------------------------------------------------------------------------------------

  /** A proxy with a final and inactivity timeout of `n` seconds creates a session and
      binds it to owner 7. */
  function Login(at: int, id: Id, key: Id, n: nat): seq<Step> {
    [Step(at, n, CreateSession(id, Session(at / 1000, at / 1000, n, n, 0, at / 1000, ""))),
     Step(at, n, CreateKey(key, id)),
     Step(at, n, CommitCall(id, Controls(true, 7, false, "", at / 1000, 0, key, key, false, []), n * 1000))]
  }

  predicate AliveIn<K, T>(t: map<K, Row<T>>, at: int) { forall k <- t :: Alive(t[k], at) }

  predicate AllAlive(db: Db, at: int) {
    AliveIn(db.sess, at) && AliveIn(db.keys, at) && AliveIn(db.rev, at) && AliveIn(db.attr, at) && AliveIn(db.sha, at) && AliveIn(db.owners, at)
  }

  lemma LivingAll<K, T>(t: map<K, Row<T>>, at: int)
    requires AliveIn(t, at)
    ensures Living(t, at) == t
  {
  }

  lemma AliveWith<K, T>(t: map<K, Row<T>>, k: K, row: Row<T>, at: int)
    requires AliveIn(t, at) && Alive(row, at)
    ensures AliveIn(t[k := row], at)
  {
  }

  lemma NothingExpires(db: Db, at: int)
    requires AllAlive(db, at)
    ensures Evict(db, at) == db
  {
    LivingAll(db.sess, at);
    LivingAll(db.keys, at);
    LivingAll(db.rev, at);
    LivingAll(db.attr, at);
    LivingAll(db.sha, at);
    LivingAll(db.owners, at);
  }

  function Newcomer(at: int, n: nat): Session { Session(at / 1000, at / 1000, n, n, 0, at / 1000, "") }

  /** The keyspace with the session and its key. */
  function WithNewcomer(db: Db, at: int, id: Id, key: Id, n: nat): Db {
    var until := Some(at + n * 1000);
    db.(sess := db.sess[id := Row(Newcomer(at, n), until)], keys := db.keys[key := Row(id, until)], rev := db.rev[id := Row({key}, until)])
  }

  /** The keyspace with the session bound. */
  function WithLogin(db: Db, at: int, id: Id, key: Id, n: nat): Db {
    var until := Some(at + n * 1000);
    var d := WithNewcomer(db, at, id, key, n);
    d.(sess := d.sess[id := Row(Newcomer(at, n).(owner := 7), until)], owners := db.owners[7 := Row(MembersOf(db.owners, 7) + {id}, until)])
  }

  function WithSession(db: Db, at: int, id: Id, n: nat): Db { db.(sess := db.sess[id := Row(Newcomer(at, n), Some(at + n * 1000))]) }

  lemma Created(db: Db, at: int, id: Id, key: Id, n: nat)
    requires AllAlive(db, at) && n >= 1 && id !in db.sess
    ensures StepTo(db, Login(at, id, key, n)[0]) == WithSession(db, at, id, n) && AllAlive(WithSession(db, at, id, n), at)
  {
    NothingExpires(db, at);
  }

  lemma Keyed(db: Db, at: int, id: Id, key: Id, n: nat)
    requires AllAlive(WithSession(db, at, id, n), at) && n >= 1 && id !in db.rev
    ensures StepTo(WithSession(db, at, id, n), Login(at, id, key, n)[1]) == WithNewcomer(db, at, id, key, n) && AllAlive(WithNewcomer(db, at, id, key, n), at)
  {
    NothingExpires(WithSession(db, at, id, n), at);
    assert PExpire(SAdd(db.rev, id, key), id, at + n * 1000) == db.rev[id := Row({key}, Some(at + n * 1000))];
  }

  lemma ListExtended(t: map<int, Row<set<Id>>>, at: int, id: Id, o: int, ttl: int)
    requires ttl > 0
    ensures Rehomed(t, at, id, 0, o, ttl) == t[o := Row(MembersOf(t, o) + {id}, Some(at + ttl))]
  {
    var added := SAdd(t, o, id);
    assert added[o].v == MembersOf(t, o) + {id};
    assert added[o := added[o].(deadline := Some(at + ttl))] == t[o := Row(MembersOf(t, o) + {id}, Some(at + ttl))];
  }

  lemma BoundTo7(db: Db, at: int, id: Id, key: Id, n: nat)
    requires AllAlive(WithNewcomer(db, at, id, key, n), at) && n >= 1 && at >= 0 && at % 1000 == 0
    ensures StepTo(WithNewcomer(db, at, id, key, n), Login(at, id, key, n)[2]) == WithLogin(db, at, id, key, n) && AllAlive(WithLogin(db, at, id, key, n), at)
  {
    var d, x, until := WithNewcomer(db, at, id, key, n), Newcomer(at, n), Some(at + n * 1000);
    var c := Controls(true, 7, false, "", at / 1000, 0, key, key, false, []);
    NothingExpires(d, at);
    ListExtended(db.owners, at, id, 7, n * 1000);
    AliveWith(d.sess, id, Row(x.(owner := 7), until), at);
    AliveWith(d.owners, 7, Row(MembersOf(db.owners, 7) + {id}, until), at);
    assert RedisStore.Granted(x, at / 1000, n * 1000, at) == n * 1000 && !Advances(x, c);
    assert CommittedRow(d.sess[id], c, at + n * 1000) == Row(x.(owner := 7), until);
  }

  lemma AfterLogin(db: Db, at: int, id: Id, key: Id, n: nat)
    requires AllAlive(db, at) && n >= 1 && at >= 0 && at % 1000 == 0 && id !in db.sess && id !in db.rev
    ensures RunSteps(db, Login(at, id, key, n)) == WithLogin(db, at, id, key, n) && AllAlive(WithLogin(db, at, id, key, n), at)
  {
    Created(db, at, id, key, n);
    Keyed(db, at, id, key, n);
    BoundTo7(db, at, id, key, n);
    ThreeSteps(db, Login(at, id, key, n));
  }

  lemma ThreeSteps(db: Db, run: seq<Step>)
    requires |run| == 3
    ensures RunSteps(db, run) == StepTo(StepTo(StepTo(db, run[0]), run[1]), run[2])
  {
    var one, two := StepTo(db, run[0]), StepTo(StepTo(db, run[0]), run[1]);
    assert RunSteps(db, run) == RunSteps(one, run[1..]);
    assert RunSteps(one, run[1..]) == RunSteps(two, run[1..][1..]);
    assert RunSteps(two, run[1..][1..]) == RunSteps(StepTo(two, run[2]), run[1..][1..][1..]);
  }

  lemma {:induction false} RunApart(db: Db, a: seq<Step>, b: seq<Step>)
    ensures RunSteps(db, a + b) == RunSteps(RunSteps(db, a), b)
    decreases |a|
  {
    if a == [] {
      assert a + b == b;
    } else {
      assert (a + b)[1..] == a[1..] + b;
      RunApart(StepTo(db, a[0]), a[1..], b);
    }
  }

  /** From an empty server: session "a" is bound under a long timeout of `m` seconds and
      session "b" under a shorter one of `n`. Once the shorter one is over, "a" is alive
      and bound to owner 7, and the owner's list is gone. */
  lemma MixedTimeoutsLoseSessions(m: nat, n: nat, at: int)
    requires 1 <= n < m && 5000 + n * 1000 < at <= 5000 + m * 1000
    ensures var e := Evict(RunSteps(NOTHING, Login(5000, "a", "ka", m) + Login(5000, "b", "kb", n)), at);
            "a" in e.sess && e.sess["a"].v.owner == 7 && 7 !in e.owners
  {
    var one := WithLogin(NOTHING, 5000, "a", "ka", m);
    AfterLogin(NOTHING, 5000, "a", "ka", m);
    AfterLogin(one, 5000, "b", "kb", n);
    RunApart(NOTHING, Login(5000, "a", "ka", m), Login(5000, "b", "kb", n));
    var two := WithLogin(one, 5000, "b", "kb", n);
    assert two.sess["a"] == Row(Newcomer(5000, m).(owner := 7), Some(5000 + m * 1000));
    assert two.owners[7].deadline == Some(5000 + n * 1000);
  }
}
