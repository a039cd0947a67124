/** What holds along every run of the protocol, whatever the interleaving. */
module ProtocolRuns {
  import opened Stores
  import opened Sessions
  import opened Protocol
  import opened ProtocolSteps
  import Labels

  predicate Possible(cfg: Config, w: World, run: seq<Action>)
    decreases |run|
  {
    run == [] || (Enabled(cfg, w, run[0]) && Possible(cfg, Next(cfg, w, run[0]), run[1..]))
  }

  function Run(cfg: Config, w: World, run: seq<Action>): World
    requires Possible(cfg, w, run)
    decreases |run|
  {
    if run == [] then w else Run(cfg, Next(cfg, w, run[0]), run[1..])
  }

  lemma {:induction false} RunKeepsInv(cfg: Config, w: World, run: seq<Action>)
    requires Inv(cfg, w) && Possible(cfg, w, run)
    ensures Inv(cfg, Run(cfg, w, run))
    decreases |run|
  {
    if run != [] {
      Step(cfg, w, run[0]);
      RunKeepsInv(cfg, Next(cfg, w, run[0]), run[1..]);
    }
  }

  /** The kinds of steps that may change the store. */
  predicate MayWrite(a: Action) {
    a.PutSession? || a.PutKey? || a.Touch? || a.Commit? || a.DeleteExpired? || a.Revoke? || a.DeleteOwned? || a.Expire?
  }

  lemma StoreStays(cfg: Config, w: World, a: Action)
    requires Enabled(cfg, w, a) && !MayWrite(a)
    ensures Next(cfg, w, a).store == w.store
  {
  }

  /** Each key, cookie and hash row belongs to an existing session, a session whose
      creation completed has exactly one key while it exists, and the owner index lists
      exactly the bound sessions. */
  ghost predicate Exact(s: Store, begun: set<Id>) {
    && (forall k <- s.keys :: s.keys[k] in s.sessions)
    && (forall id <- s.cookies.Keys + s.shas.Keys :: id in s.sessions)
    && (forall id <- s.sessions :: id in begun ==> exists k <- s.keys :: s.keys[k] == id)
    && (forall k <- s.keys, l <- s.keys :: s.keys[k] == s.keys[l] ==> k == l)
    && (forall o, id :: id in Members(s.owners, o) <==> id in s.sessions && s.sessions[id].owner == o && o != 0)
  }

  lemma InvIsExact(w: World)
    requires Sound(w.store) && Known(w)
    ensures Exact(w.store, w.begun)
  {
  }

  /** In every reachable world the store is exact. */
  lemma ReachableStoresAreSound(cfg: Config, run: seq<Action>)
    requires Possible(cfg, INITIAL, run)
    ensures Exact(Run(cfg, INITIAL, run).store, Run(cfg, INITIAL, run).begun)
  {
    RunKeepsInv(cfg, INITIAL, run);
    InvIsExact(Run(cfg, INITIAL, run));
  }

  // ---- keys and session ids are used once ----------------------------------------

  /** An identifier some request has seen, that maps to nothing and never will. */
  ghost predicate DeadKey(w: World, k: Id) {
    k in w.status && k !in w.store.keys && forall r <- w.reqs :: !Pending(w.reqs[r], k)
  }

  ghost predicate DeadSession(w: World, id: Id) {
    id in w.status && id !in w.store.sessions && forall r <- w.reqs :: !Creates(w.reqs[r], id)
  }

  lemma DecisionIsNew(cfg: Config, w: World, r: nat, h: Handle, g: Handle, ask: Ask, at: int, mint: Id, k: Id, q: nat)
    requires r in w.reqs && k in w.status && mint !in w.status && q in AfterControls(cfg, w, r, h, g, ask, at, mint).reqs
    ensures Pending(AfterControls(cfg, w, r, h, g, ask, at, mint).reqs[q], k) ==> q in w.reqs && Pending(w.reqs[q], k)
  {
  }

  lemma ControlsIsNew(cfg: Config, w: World, a: Action, r: nat, k: Id)
    requires a.ReadControls? && Enabled(cfg, w, a) && k in w.status && r in Next(cfg, w, a).reqs
    ensures Pending(Next(cfg, w, a).reqs[r], k) ==> r in w.reqs && Pending(w.reqs[r], k)
  {
    var q := w.reqs[a.r];
    if !a.fails { DecisionIsNew(cfg, w, a.r, q.h, Unpended(q.h, q.Binding? && q.suppressed), a.ask, a.at, a.mint, k, r); }
  }

  lemma RotateIsNew(cfg: Config, w: World, a: Action, r: nat, k: Id)
    requires a.ReadRotate? && Enabled(cfg, w, a) && k in w.status && r in Next(cfg, w, a).reqs
    ensures Pending(Next(cfg, w, a).reqs[r], k) ==> r in w.reqs && Pending(w.reqs[r], k)
  {
  }

  lemma StartedIsNew(cfg: Config, w: World, a: Action, r: nat, k: Id)
    requires (a.Begin? || a.Present? || a.ListOwner? || a.Expire?) && Enabled(cfg, w, a) && k in w.status && r in Next(cfg, w, a).reqs
    ensures Pending(Next(cfg, w, a).reqs[r], k) ==> r in w.reqs && Pending(w.reqs[r], k)
    ensures Creates(Next(cfg, w, a).reqs[r], k) ==> r in w.reqs && Creates(w.reqs[r], k)
  {
  }

  lemma OtherIsNew(cfg: Config, w: World, a: Action, r: nat, k: Id)
    requires !(a.Begin? || a.Present? || a.ListOwner? || a.Expire? || a.ReadControls? || a.ReadRotate?)
    requires Enabled(cfg, w, a) && k in w.status && r in Next(cfg, w, a).reqs
    ensures Pending(Next(cfg, w, a).reqs[r], k) ==> r in w.reqs && Pending(w.reqs[r], k)
  {
  }

  /** Only a freshly minted identifier becomes pending. */
  lemma PendingIsNew(cfg: Config, w: World, a: Action, r: nat, k: Id)
    requires Enabled(cfg, w, a) && k in w.status && r in Next(cfg, w, a).reqs
    ensures Pending(Next(cfg, w, a).reqs[r], k) ==> r in w.reqs && Pending(w.reqs[r], k)
  {
    if a.ReadControls? { ControlsIsNew(cfg, w, a, r, k); }
    else if a.ReadRotate? { RotateIsNew(cfg, w, a, r, k); }
    else if a.Begin? || a.Present? || a.ListOwner? || a.Expire? { StartedIsNew(cfg, w, a, r, k); }
    else { OtherIsNew(cfg, w, a, r, k); }
  }

  predicate Creates(q: Req, id: Id) { q.Minted? && q.sid == id }

  lemma CreatedIsNew(cfg: Config, w: World, a: Action, r: nat, id: Id)
    requires Enabled(cfg, w, a) && id in w.status && r in Next(cfg, w, a).reqs
    ensures Creates(Next(cfg, w, a).reqs[r], id) ==> r in w.reqs && Creates(w.reqs[r], id)
  {
    if a.Begin? || a.Present? || a.ListOwner? || a.Expire? { StartedIsNew(cfg, w, a, r, id); }
  }

  lemma LiveIsNotPending(cfg: Config, w: World, k: Id)
    requires Inv(cfg, w)
    ensures k in w.store.keys ==> forall r <- w.reqs :: !Pending(w.reqs[r], k)
    ensures k in w.store.sessions ==> forall r <- w.reqs :: !Creates(w.reqs[r], k)
  {
  }

  lemma StepKillsKey(cfg: Config, w: World, a: Action, k: Id)
    requires Inv(cfg, w) && Enabled(cfg, w, a) && (DeadKey(w, k) || (k in w.store.keys && k !in Next(cfg, w, a).store.keys))
    ensures DeadKey(Next(cfg, w, a), k)
  {
    var t := Next(cfg, w, a);
    Step(cfg, w, a);
    LiveIsNotPending(cfg, w, k);
    forall r | r in t.reqs ensures !Pending(t.reqs[r], k) {
      PendingIsNew(cfg, w, a, r, k);
    }
  }

  lemma StepKillsSession(cfg: Config, w: World, a: Action, id: Id)
    requires Inv(cfg, w) && Enabled(cfg, w, a)
    requires DeadSession(w, id) || (id in w.store.sessions && id !in Next(cfg, w, a).store.sessions)
    ensures DeadSession(Next(cfg, w, a), id)
  {
    var t := Next(cfg, w, a);
    Step(cfg, w, a);
    LiveIsNotPending(cfg, w, id);
    forall r | r in t.reqs ensures !Creates(t.reqs[r], id) {
      CreatedIsNew(cfg, w, a, r, id);
    }
  }

  lemma {:induction false} DeadStaysDead(cfg: Config, w: World, run: seq<Action>, k: Id)
    requires Inv(cfg, w) && Possible(cfg, w, run)
    ensures DeadKey(w, k) ==> DeadKey(Run(cfg, w, run), k)
    ensures DeadSession(w, k) ==> DeadSession(Run(cfg, w, run), k)
    decreases |run|
  {
    if run != [] {
      Step(cfg, w, run[0]);
      if DeadKey(w, k) { StepKillsKey(cfg, w, run[0], k); }
      if DeadSession(w, k) { StepKillsSession(cfg, w, run[0], k); }
      DeadStaysDead(cfg, Next(cfg, w, run[0]), run[1..], k);
    }
  }

  /** A retired key never maps again and a deleted session id never reappears,
      however the run continues. */
  lemma RetiredForever(cfg: Config, w: World, a: Action, run: seq<Action>, k: Id)
    requires Inv(cfg, w) && Possible(cfg, w, [a] + run)
    ensures k in w.store.keys && k !in Next(cfg, w, a).store.keys ==> k !in Run(cfg, w, [a] + run).store.keys
    ensures k in w.store.sessions && k !in Next(cfg, w, a).store.sessions ==> k !in Run(cfg, w, [a] + run).store.sessions
  {
    assert ([a] + run)[1..] == run;
    var t := Next(cfg, w, a);
    Step(cfg, w, a);
    if k in w.store.keys && k !in t.store.keys { StepKillsKey(cfg, w, a, k); }
    if k in w.store.sessions && k !in t.store.sessions { StepKillsSession(cfg, w, a, k); }
    DeadStaysDead(cfg, t, run, k);
  }

  // ---- rights ----------------------------------------------------------------------

  lemma StepKeepsRights(cfg: Config, w: World, a: Action, k: Id)
    requires Inv(cfg, w) && Enabled(cfg, w, a) && IsPublic(w, k) && k in w.store.keys && k in Next(cfg, w, a).store.keys
    ensures var t := Next(cfg, w, a);
            var id := w.store.keys[k];
            && IsPublic(t, k) && t.store.keys[k] == id && id in w.store.sessions && id in t.store.sessions
            && SameRights(cfg, w.store.sessions[id], t.store.sessions[id])
  {
    Step(cfg, w, a);
    var t, r := Next(cfg, w, a), Actor(w, a);
    assert StatusStep(w, t, r) && KeyStep(w, t, r) && RightsStep(cfg, w, t, r);
  }

  /** From the moment a client knows a key until the key is retired, the key keeps
      its session and that session keeps its rights. */
  lemma {:induction false} RightsAreConstant(cfg: Config, w: World, run: seq<Action>, k: Id)
    requires Inv(cfg, w) && Possible(cfg, w, run) && IsPublic(w, k)
    requires k in w.store.keys && k in Run(cfg, w, run).store.keys
    ensures var t := Run(cfg, w, run);
            var id := w.store.keys[k];
            && t.store.keys[k] == id && id in w.store.sessions && id in t.store.sessions
            && t.store.sessions[id].labels == w.store.sessions[id].labels
            && (cfg.rotateOnLogin ==> t.store.sessions[id].owner == w.store.sessions[id].owner)
    decreases |run|
  {
    if run == [] {
      assert Sound(w.store);
    } else {
      SurvivesFirst(cfg, w, run, k);
      StepKeepsRights(cfg, w, run[0], k);
      RightsAreConstant(cfg, Next(cfg, w, run[0]), run[1..], k);
    }
  }

  /** A key that maps at both ends of a run maps after its first step. */
  lemma SurvivesFirst(cfg: Config, w: World, run: seq<Action>, k: Id)
    requires Inv(cfg, w) && Possible(cfg, w, run) && run != []
    requires k in w.store.keys && k in Run(cfg, w, run).store.keys
    ensures k in Next(cfg, w, run[0]).store.keys && Inv(cfg, Next(cfg, w, run[0]))
  {
    var t := Next(cfg, w, run[0]);
    Step(cfg, w, run[0]);
    if k !in t.store.keys {
      StepKillsKey(cfg, w, run[0], k);
      DeadStaysDead(cfg, t, run[1..], k);
    }
  }

  /** A key that carries rights changed by a commit is new: a commit that changes
      the rights of a session retires the key it was asked under, unless no client
      knows that key. */
  lemma RightsChangeRetiresKey(cfg: Config, w: World, a: Action, id: Id)
    requires Inv(cfg, w) && Enabled(cfg, w, a) && id in w.store.sessions && id in Next(cfg, w, a).store.sessions
    requires !SameRights(cfg, w.store.sessions[id], Next(cfg, w, a).store.sessions[id])
    ensures forall k <- w.store.keys :: w.store.keys[k] == id && IsPublic(w, k) ==> k !in Next(cfg, w, a).store.keys
  {
    Step(cfg, w, a);
    assert Guarantee(cfg, w, Next(cfg, w, a), Actor(w, a));
  }

  /** Resolve linearizes: a resolve that gets past its touch step returns the rights
      stored at that very step, under a key that maps to the session at that step. */
  lemma ResolveLinearizes(cfg: Config, w: World, a: Action)
    requires Inv(cfg, w) && a.Touch? && Enabled(cfg, w, a) && a.r in Next(cfg, w, a).reqs
    ensures var t := Next(cfg, w, a);
            && t.reqs[a.r].Resolved?
            && var h := t.reqs[a.r].h;
            && h.key == w.reqs[a.r].key && Maps(t.store, h.key, h.sid) && h.sid in t.store.sessions
            && h.labels == Labels.Fields(t.store.sessions[h.sid].labels)
            && (cfg.rotateOnLogin ==> h.owner == t.store.sessions[h.sid].owner)
  {
  }

  /** The gate in front of the backend lets a request through on a handle's label;
      whenever the handle's key is live, that label is in the store at that moment. */
  lemma GateIsSound(cfg: Config, run: seq<Action>, r: nat, required: string)
    requires Possible(cfg, INITIAL, run)
    ensures var w := Run(cfg, INITIAL, run);
            r in w.reqs && w.reqs[r].Ready? && required in w.reqs[r].h.labels && w.reqs[r].h.key in w.store.keys ==>
              && w.reqs[r].h.sid in w.store.sessions
              && required in Labels.Fields(w.store.sessions[w.reqs[r].h.sid].labels)
  {
    RunKeepsInv(cfg, INITIAL, run);
    var w := Run(cfg, INITIAL, run);
    if r in w.reqs { assert ReqOk(cfg, w, r, w.reqs[r]); }
  }

  /** Commits linearize although they decide from an earlier read: when one succeeds,
      the rights it read are the rights stored at the commit, and its handle shows the
      rights it leaves. */
  lemma CommitLinearizes(cfg: Config, w: World, a: Action)
    requires Inv(cfg, w) && a.Commit? && Enabled(cfg, w, a)
    requires !a.fails && Apply(w.store, w.reqs[a.r].h.sid, w.reqs[a.r].c).1 == Ok
    ensures var q := w.reqs[a.r];
            && SameRights(cfg, q.x, w.store.sessions[q.h.sid])
            && Next(cfg, w, a).reqs[a.r] == Ready(q.after)
            && Maps(Next(cfg, w, a).store, q.after.key, q.h.sid)
            && q.after.labels == Labels.Fields(Next(cfg, w, a).store.sessions[q.h.sid].labels)
  {
    var q := w.reqs[a.r];
    assert ReqOk(cfg, w, a.r, q);
    CommitHandle(cfg, w, Next(cfg, w, a), a.r, q.h, q.after, q.c, q.x);
  }

  /** A request whose key no longer maps to its session changes nothing at its
      touch or commit step, and keeps the handle it had. */
  lemma StaleRequestsChangeNothing(cfg: Config, w: World, a: Action)
    requires (a.Commit? || a.Touch?) && Enabled(cfg, w, a)
    requires var q := w.reqs[a.r]; if a.Commit? then q.c.oldKey == q.h.key && !Maps(w.store, q.h.key, q.h.sid) else !Maps(w.store, q.key, q.sid)
    ensures Next(cfg, w, a).store == w.store && Next(cfg, w, a).status == w.status
    ensures Next(cfg, w, a).reqs == if a.Commit? then w.reqs[a.r := Ready(w.reqs[a.r].h)] else w.reqs - {a.r}
  {
  }

  // ---- logout everywhere ---------------------------------------------------------------

  /** The snapshot of an owner's sessions misses none of them, and lists nothing else
      but the stale members the store still had. */
  lemma SnapshotIsExact(cfg: Config, w: World, o: int, stale: set<Id>, id: Id)
    requires Inv(cfg, w) && o > 0
    ensures var q := Next(cfg, w, ListOwner(o, stale)).reqs[w.next];
            q.Revoking? && q.owner == o && (id in q.todo <==> id in stale || (id in w.store.sessions && w.store.sessions[id].owner == o))
  {
  }

  /** The delete step of one listed session removes its whole cascade if it is still
      owned by that owner, and otherwise changes nothing at all. */
  lemma OwnedDeleteIsExact(cfg: Config, w: World, a: Action)
    requires Inv(cfg, w) && a.DeleteOwned? && Enabled(cfg, w, a)
    ensures Next(cfg, w, a).store ==
            if !a.fails && a.sid in w.store.sessions && w.store.sessions[a.sid].owner == w.reqs[a.r].owner
            then Stores.Expire(w.store, {a.sid}) else w.store
  {
    assert ReqOk(cfg, w, a.r, w.reqs[a.r]);
    DeleteByOwnerIsExpire(w.store, w.reqs[a.r].owner, a.sid);
  }

  /** Along the run the session is never bound to anybody else, and the sweep's
      delete of it does not fail. */
  ghost predicate Undisturbed(cfg: Config, w: World, run: seq<Action>, r: nat, o: int, id: Id)
    requires Possible(cfg, w, run)
    decreases |run|
  {
    && (id in w.store.sessions ==> w.store.sessions[id].owner == o)
    && (run != [] ==> run[0] != DeleteOwned(r, id, true) && Undisturbed(cfg, Next(cfg, w, run[0]), run[1..], r, o, id))
  }

  /** The sweep keeps its list until it works through it. */
  lemma SweepAdvances(cfg: Config, w: World, a: Action, r: nat, id: Id)
    requires r < w.next && Enabled(cfg, w, a) && r in w.reqs && w.reqs[r].Revoking? && id in w.reqs[r].todo
    ensures var t := Next(cfg, w, a);
            || (a.DeleteOwned? && a.r == r && a.sid == id)
            || (r in t.reqs && t.reqs[r].Revoking? && t.reqs[r].owner == w.reqs[r].owner && id in t.reqs[r].todo)
  {
    if a.DeleteOwned? && a.r == r && a.sid != id { assert id in w.reqs[r].todo - {a.sid}; }
  }

  /** Logout everywhere is complete under interference: when a sweep is done with a
      session that stayed bound to its owner, the session is gone for good. */
  lemma {:induction false} SweepIsComplete(cfg: Config, w: World, run: seq<Action>, r: nat, o: int, id: Id)
    requires Inv(cfg, w) && Possible(cfg, w, run) && Undisturbed(cfg, w, run, r, o, id)
    requires r in w.reqs && w.reqs[r].Revoking? && w.reqs[r].owner == o && id in w.reqs[r].todo
    requires id in w.store.sessions || DeadSession(w, id)
    requires var t := Run(cfg, w, run); r in t.reqs && t.reqs[r].Revoking? ==> id !in t.reqs[r].todo
    ensures id !in Run(cfg, w, run).store.sessions
    decreases |run|
  {
    var a, t := run[0], Next(cfg, w, run[0]);
    Step(cfg, w, a);
    SweepAdvances(cfg, w, a, r, id);
    if id !in t.store.sessions || DeadSession(w, id) { StepKillsSession(cfg, w, a, id); }
    if a.DeleteOwned? && a.r == r && a.sid == id {
      OwnedDeleteIsExact(cfg, w, a);
      DeadStaysDead(cfg, t, run[1..], id);
    } else {
      SweepIsComplete(cfg, t, run[1..], r, o, id);
    }
  }
}
