/** Whole runs of the Redis store under one clock: what the manager's calls keep,
    and what plain run they amount to. */
module RedisRuns {
  import opened Stores
  import opened RedisStore
  import opened RedisRefinement
  import opened RedisScripts

  datatype Call =
    | CreateSession(id: Id, x: Session)
    | CreateKey(key: Id, id: Id)
    | TouchCall(id: Id, key: Id, access: int, rotation: int, ttl: int)
    | CommitCall(id: Id, c: Controls, ttl: int)
    | DeleteCall(id: Id)
    | DeleteOwnedCall(owner: int, id: Id)

  /** A call and the server time at which its script runs. */
  datatype Event = Event(at: int, call: Call)

  function CreationTtl(x: Session): int { Least(x.inactive, x.final) * 1000 }

  /** The script of a call, on the keyspace it finds at its time. */
  function Script(db: Db, now: int, final: int, call: Call): (r: (Db, int)) {
    match call
    case CreateSession(id, x) => (RPutSession(db, now, id, x, CreationTtl(x)), 1)
    case CreateKey(key, id) => RPutKey(db, now, key, id)
    case TouchCall(id, key, access, rotation, ttl) => RTouch(db, now, id, key, access, rotation, ttl)
    case CommitCall(id, c, ttl) => RApply(db, now, id, c, ttl, final * 1000)
    case DeleteCall(id) => (RDelete(db, id), 1)
    case DeleteOwnedCall(owner, id) => RDeleteByOwner(db, owner, id)
  }

  function Reply(code: Code): int { if code == Ok then 1 else if code == NotFound then 0 else -1 }

  /** The plain operation of a call. */
  function Plain(s: Store, call: Call): (r: (Store, int)) {
    match call
    case CreateSession(id, x) => (PutSession(s, id, x), 1)
    case CreateKey(key, id) => var r := PutKey(s, key, id); (r.0, Reply(r.1))
    case TouchCall(id, key, access, rotation, _) => var r := Touch(s, id, key, access, rotation); (r.0, Reply(r.1))
    case CommitCall(id, c, _) => var r := Apply(s, id, c); (r.0, Reply(r.1))
    case DeleteCall(id) => (Delete(s, id), 1)
    case DeleteOwnedCall(owner, id) => var r := DeleteByOwner(s, owner, id); (r.0, if r.1 then 1 else 0)
  }

  /** How the manager calls: it creates a session once, on the shared clock, with the
      timeouts of the configuration; it gives it one key; owners are positive. */
  ghost predicate Legal(s: Store, now: int, final: int, call: Call) {
    match call
    case CreateSession(id, x) =>
      && id !in s.sessions && x.inactive >= 1 && x.final == final >= 1 && x.owner == 0
      && x.creation * 1000 <= now
    case CreateKey(key, id) => key !in s.keys && forall k <- s.keys :: s.keys[k] != id
    case TouchCall(_, _, _, _, _) => true
    case CommitCall(_, c, _) => c.setOwner ==> c.owner > 0
    case DeleteCall(_) => true
    case DeleteOwnedCall(owner, _) => owner > 0
  }

  /** The script finds a session whose time is up although its rows are still there,
      or is handed no time to live. */
  predicate Late(db: Db, now: int, call: Call) {
    match call
    case CreateKey(_, id) => id in db.sess && db.sess[id].deadline == Some(now)
    case TouchCall(id, _, access, _, ttl) => id in db.sess && Granted(db.sess[id].v, access, ttl, now) <= 0
    case CommitCall(id, c, ttl) => id in db.sess && (ttl <= 0 || Granted(db.sess[id].v, c.lastAccess, ttl, now) <= 0)
    case _ => false
  }

  /** One script refines its plain operation: same reply and same store, unless it is
      late and then it changes nothing. */
  lemma ScriptRefines(db: Db, now: int, final: int, call: Call)
    requires Orderly(db, now, final) && Legal(View(db), now, final, call)
    ensures var (d, code) := Script(db, now, final, call);
            && Orderly(d, now, final)
            && (Plain(View(db), call) == (View(d), code) || (Late(db, now, call) && d == db && code != 1))
            && (!Late(db, now, call) ==> Plain(View(db), call) == (View(d), code))
  {
    match call
    case CreateSession(id, x) => PutSessionRefines(db, now, final, id, x, CreationTtl(x));
    case CreateKey(key, id) =>
      ReverseMaps(db, id);
      PutKeyRefines(db, now, final, key, id);
    case TouchCall(id, key, access, rotation, ttl) => TouchRefines(db, now, final, id, key, access, rotation, ttl);
    case CommitCall(id, c, ttl) => ApplyRefines(db, now, final, id, c, ttl);
    case DeleteCall(id) => DeleteRefines(db, now, final, id);
    case DeleteOwnedCall(owner, id) => DeleteByOwnerRefines(db, now, final, owner, id);
  }

  lemma ReverseMaps(db: Db, id: Id)
    requires forall i :: Whole(db, i)
    ensures forall k <- MembersOf(db.rev, id) :: k in View(db).keys && View(db).keys[k] == id
    ensures id in db.rev ==> MembersOf(db.rev, id) != {}
  {
    assert Whole(db, id);
  }

  // ---- runs ----------------------------------------------------------------------

  function After(db: Db, final: int, e: Event): Db { Script(Evict(db, e.at), e.at, final, e.call).0 }

  ghost predicate LegalRun(db: Db, now: int, final: int, run: seq<Event>)
    decreases |run|
  {
    run == [] ||
    (now <= run[0].at && Legal(View(Evict(db, run[0].at)), run[0].at, final, run[0].call) &&
     LegalRun(After(db, final, run[0]), run[0].at, final, run[1..]))
  }

  function RunRedis(db: Db, final: int, run: seq<Event>): Db
    decreases |run|
  {
    if run == [] then db else RunRedis(After(db, final, run[0]), final, run[1..])
  }

  function LastTime(now: int, run: seq<Event>): int { if run == [] then now else run[|run| - 1].at }

  /** What one event amounts to in the plain store: sessions expire, then the call
      takes effect or is rejected. */
  datatype PlainStep = PlainStep(expired: set<Id>, call: Option<Call>)

  ghost function Amounts(db: Db, e: Event): PlainStep {
    PlainStep(Over(db, e.at), if Late(Evict(db, e.at), e.at, e.call) then None else Some(e.call))
  }

  ghost function PlainRun(s: Store, steps: seq<PlainStep>): Store
    decreases |steps|
  {
    if steps == [] then s
    else
      var x := Expire(s, steps[0].expired);
      PlainRun(if steps[0].call.Some? then Plain(x, steps[0].call.value).0 else x, steps[1..])
  }

  ghost function PlainSteps(db: Db, final: int, run: seq<Event>): seq<PlainStep>
    decreases |run|
  {
    if run == [] then [] else [Amounts(db, run[0])] + PlainSteps(After(db, final, run[0]), final, run[1..])
  }

  lemma EventRefines(db: Db, now: int, final: int, e: Event)
    requires Orderly(db, now, final) && now <= e.at && Legal(View(Evict(db, e.at)), e.at, final, e.call)
    ensures Orderly(After(db, final, e), e.at, final)
    ensures View(After(db, final, e)) == PlainRun(View(db), [Amounts(db, e)])
  {
    EvictOk(db, now, e.at, final);
    EvictIsExpire(db, now, e.at, final);
    ScriptRefines(Evict(db, e.at), e.at, final, e.call);
    OnePlainStep(View(db), Amounts(db, e));
  }

  lemma OnePlainStep(s: Store, step: PlainStep)
    ensures var x := Expire(s, step.expired); PlainRun(s, [step]) == if step.call.Some? then Plain(x, step.call.value).0 else x
  {
    assert [step][1..] == [];
  }

  /** Every legal run of the Redis store keeps the invariant - one deadline for all rows
      of a session, exact reverse sets, owner sets that outlive their sessions - and
      represents the plain run in which sessions expire whole. */
  lemma {:induction false} RunRefines(db: Db, now: int, final: int, run: seq<Event>)
    requires Orderly(db, now, final) && LegalRun(db, now, final, run)
    ensures Orderly(RunRedis(db, final, run), LastTime(now, run), final)
    ensures View(RunRedis(db, final, run)) == PlainRun(View(db), PlainSteps(db, final, run))
    decreases |run|
  {
    if run != [] {
      var d := After(db, final, run[0]);
      EventRefines(db, now, final, run[0]);
      RunRefines(d, run[0].at, final, run[1..]);
      var steps := PlainSteps(db, final, run);
      assert steps[1..] == PlainSteps(d, final, run[1..]);
      assert [Amounts(db, run[0])][1..] == [];
      assert LastTime(now, run) == LastTime(run[0].at, run[1..]);
    }
  }

  // ---- deadlines ---------------------------------------------------------------------

  /** The deadline respects both limits of the session as stored. */
  predicate Capped(row: Row<Session>) {
    && row.deadline.Some?
    && row.deadline.value <= (row.v.lastAccess + row.v.inactive) * 1000
    && row.deadline.value <= (row.v.creation + row.v.final) * 1000
  }

  /** The deadline stays or respects both limits, and a capped session stays capped. */
  predicate KeepsCaps(row: Row<Session>, after: Row<Session>) {
    && (after.deadline == row.deadline || Capped(after)) && (Capped(row) ==> Capped(after))
    && after.v.creation == row.v.creation && after.v.lastAccess >= row.v.lastAccess
  }

  /** What a script grants ends within both limits. */
  lemma GrantedCaps(x: Session, y: Session, access: int, ttl: int, now: int)
    requires x.inactive > 0 && x.final > 0 && Granted(x, access, ttl, now) > 0
    requires y.creation == x.creation && y.inactive == x.inactive && y.final == x.final && y.lastAccess == Max(x.lastAccess, access)
    ensures Capped(Row(y, Some(now + Granted(x, access, ttl, now))))
  {
  }

  lemma TouchCaps(db: Db, now: int, i: Id, key: Id, access: int, rotation: int, ttl: int)
    requires i in db.sess && db.sess[i].v.inactive > 0 && db.sess[i].v.final > 0
    ensures KeepsCaps(db.sess[i], RTouch(db, now, i, key, access, rotation, ttl).0.sess[i])
  {
    var x := db.sess[i].v;
    if Granted(x, access, ttl, now) > 0 { GrantedCaps(x, TouchedSession(x, access, rotation), access, ttl, now); }
  }

  lemma CommitCaps(db: Db, now: int, i: Id, c: Controls, ttl: int, ownerTtl: int)
    requires i in db.sess && db.sess[i].v.inactive > 0 && db.sess[i].v.final > 0
    ensures KeepsCaps(db.sess[i], RApply(db, now, i, c, ttl, ownerTtl).0.sess[i])
  {
    var x := db.sess[i].v;
    if Granted(x, c.lastAccess, ttl, now) > 0 { GrantedCaps(x, ControlledSession(x, c), c.lastAccess, ttl, now); }
  }

  /** A new session's deadline respects both limits exactly when the server's clock has
      not gone past the second of its creation, which the manager's comment on lifetimes
      takes for granted. */
  lemma CreationCapsIff(db: Db, now: int, id: Id, x: Session)
    requires x.lastAccess == x.creation && x.inactive >= 1 && x.final >= 1
    ensures Capped(RPutSession(db, now, id, x, CreationTtl(x)).sess[id]) <==> now <= x.creation * 1000
  {
  }

  /** The first touch or commit that advances a session puts its deadline within both
      limits, whatever it was. */
  lemma AdvancingCaps(db: Db, now: int, id: Id, key: Id, access: int, rotation: int, c: Controls, ttl: int, ownerTtl: int)
    requires id in db.sess && db.sess[id].v.inactive > 0 && db.sess[id].v.final > 0
    ensures RTouch(db, now, id, key, access, rotation, ttl).1 == 1 && access > db.sess[id].v.lastAccess ==>
              Capped(RTouch(db, now, id, key, access, rotation, ttl).0.sess[id])
    ensures RApply(db, now, id, c, ttl, ownerTtl).1 == 1 && Advances(db.sess[id].v, c) ==> Capped(RApply(db, now, id, c, ttl, ownerTtl).0.sess[id])
  {
    var x := db.sess[id].v;
    if Granted(x, access, ttl, now) > 0 { GrantedCaps(x, TouchedSession(x, access, rotation), access, ttl, now); }
    if Granted(x, c.lastAccess, ttl, now) > 0 { GrantedCaps(x, ControlledSession(x, c), c.lastAccess, ttl, now); }
  }

  /** A script leaves a session's deadline alone or sets it within both limits, and
      never moves a capped session beyond its limits. */
  lemma ScriptCaps(db: Db, now: int, final: int, call: Call, id: Id)
    requires Timed(db, now, final) && id in db.sess && id in Script(db, now, final, call).0.sess
    requires !(call.CreateSession? && call.id == id)
    ensures KeepsCaps(db.sess[id], Script(db, now, final, call).0.sess[id])
  {
    assert TimedRow(db.sess[id], now, final);
    match call
    case TouchCall(i, key, access, rotation, ttl) => if i == id { TouchCaps(db, now, i, key, access, rotation, ttl); }
    case CommitCall(i, c, ttl) => if i == id { CommitCaps(db, now, i, c, ttl, final * 1000); }
    case _ =>
  }

  lemma EventCaps(db: Db, now: int, final: int, e: Event, id: Id)
    requires Orderly(db, now, final) && now <= e.at && Legal(View(Evict(db, e.at)), e.at, final, e.call)
    requires id in db.sess && id in After(db, final, e).sess && !(e.call.CreateSession? && e.call.id == id)
    ensures var row, after := db.sess[id], After(db, final, e).sess[id];
            (after.deadline == row.deadline || Capped(after)) && (Capped(row) ==> Capped(after))
  {
    EvictOk(db, now, e.at, final);
    StaysWithoutCreation(Evict(db, e.at), e.at, final, e.call, id);
    ScriptCaps(Evict(db, e.at), e.at, final, e.call, id);
  }

  lemma StaysWithoutCreation(db: Db, now: int, final: int, call: Call, id: Id)
    requires !(call.CreateSession? && call.id == id)
    ensures id in Script(db, now, final, call).0.sess ==> id in db.sess
  {
  }

  /** Along every run a session's deadline is the one creation gave it or lies within
      both limits. */
  lemma {:induction false} RunCaps(db: Db, now: int, final: int, run: seq<Event>, id: Id)
    requires Orderly(db, now, final) && LegalRun(db, now, final, run) && id in db.sess && id in RunRedis(db, final, run).sess
    requires forall e <- run :: !(e.call.CreateSession? && e.call.id == id)
    ensures var row, after := db.sess[id], RunRedis(db, final, run).sess[id];
            (after.deadline == row.deadline || Capped(after)) && (Capped(row) ==> Capped(after))
    decreases |run|
  {
    if run != [] {
      var e, d := run[0], After(db, final, run[0]);
      assert e in run;
      EventRefines(db, now, final, e);
      if id !in d.sess { NotRecreated(d, e.at, final, run[1..], id); }
      EventCaps(db, now, final, e, id);
      RunCaps(d, e.at, final, run[1..], id);
    }
  }

  lemma {:induction false} NotRecreated(db: Db, now: int, final: int, run: seq<Event>, id: Id)
    requires id !in db.sess && forall e <- run :: !(e.call.CreateSession? && e.call.id == id)
    ensures id !in RunRedis(db, final, run).sess
    decreases |run|
  {
    if run != [] {
      assert run[0] in run;
      StaysWithoutCreation(Evict(db, run[0].at), run[0].at, final, run[0].call, id);
      NotRecreated(After(db, final, run[0]), now, final, run[1..], id);
    }
  }

  // ---- logout everywhere ------------------------------------------------------------------

  /** At any time after any run, listing an owner's sessions finds every live session
      bound to that owner. */
  lemma OwnerListIsComplete(db: Db, now: int, final: int, run: seq<Event>, at: int, id: Id)
    requires Orderly(db, now, final) && LegalRun(db, now, final, run) && LastTime(now, run) <= at
    ensures var e := Evict(RunRedis(db, final, run), at);
            id in e.sess && e.sess[id].v.owner != 0 ==> id in MembersOf(e.owners, e.sess[id].v.owner)
  {
    RunRefines(db, now, final, run);
    EvictOk(RunRedis(db, final, run), LastTime(now, run), at, final);
    var e := Evict(RunRedis(db, final, run), at);
    if id in e.sess { assert CoveredBy(e.owners, id, e.sess[id]); }
  }
}
