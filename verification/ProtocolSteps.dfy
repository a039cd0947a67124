/** Every step of the protocol keeps the invariant and its guarantee. */
module ProtocolSteps {
  import opened Stores
  import opened Sessions
  import opened Protocol
  import Labels

  lemma BeginStep(cfg: Config, w: World, a: Action)
    requires Before(cfg, w, w.next) && w.next !in w.reqs && Enabled(cfg, w, a) && (a.Begin? || a.Present? || a.ListOwner?)
    ensures Local(cfg, w, Next(cfg, w, a), w.next)
  {
    StillLocal(cfg, w, Next(cfg, w, a), w.next);
  }

  lemma PutSessionStep(cfg: Config, w: World, a: Action)
    requires a.PutSession? && Before(cfg, w, a.r) && Enabled(cfg, w, a)
    ensures Local(cfg, w, Next(cfg, w, a), a.r)
  {
    if a.fails { Ends(cfg, w, a.r); } else { SessionPut(cfg, w, a.r, w.reqs[a.r]); }
  }

  function WithSession(w: World, r: nat, q: Req): World
    requires q.Minted?
  {
    With(w.(store := Stores.PutSession(w.store, q.sid, q.x)), r, Stored(q.sid, q.key))
  }

  lemma SessionPutGuarantee(cfg: Config, w: World, r: nat, q: Req)
    requires Sound(w.store) && r in w.reqs && w.reqs[r] == q && q.Minted? && ReqOk(cfg, w, r, q)
    ensures Guarantee(cfg, w, WithSession(w, r, q), r)
  {
  }

  lemma SessionPut(cfg: Config, w: World, r: nat, q: Req)
    requires Before(cfg, w, r) && r in w.reqs && w.reqs[r] == q && q.Minted?
    ensures Local(cfg, w, WithSession(w, r, q), r)
  {
    assert ReqOk(cfg, w, r, q);
    PutSessionSound(w.store, q.sid, q.x);
    SessionPutGuarantee(cfg, w, r, q);
    assert Keyless(w.store, q.sid);
  }

  lemma PutKeyStep(cfg: Config, w: World, a: Action)
    requires a.PutKey? && Before(cfg, w, a.r) && Enabled(cfg, w, a)
    ensures Local(cfg, w, Next(cfg, w, a), a.r)
  {
    var q := w.reqs[a.r];
    if a.fails || q.sid !in w.store.sessions { Ends(cfg, w, a.r); } else { KeyPut(cfg, w, a.r, q); }
  }

  /** The world once a new session has its key. */
  function WithKey(w: World, r: nat, q: Req): World
    requires q.Stored?
  {
    With(w.(store := Stores.PutKey(w.store, q.key, q.sid).0, begun := w.begun + {q.sid}), r, Ready(BeginHandle(q.sid, q.key)))
  }

  lemma KeyPutGuarantee(cfg: Config, w: World, r: nat, q: Req)
    requires Sound(w.store) && Known(w) && r in w.reqs && w.reqs[r] == q && q.Stored? && ReqOk(cfg, w, r, q) && q.sid in w.store.sessions
    ensures Guarantee(cfg, w, WithKey(w, r, q), r)
  {
    assert WithKey(w, r, q).store.keys == w.store.keys[q.key := q.sid];
  }

  lemma KeyPutResult(cfg: Config, w: World, r: nat, q: Req)
    requires Sound(w.store) && Known(w) && r in w.reqs && q.Stored? && ReqOk(cfg, w, r, q) && q.sid in w.store.sessions
    ensures var t := WithKey(w, r, q); Sound(t.store) && Known(t) && ReqOk(cfg, t, r, Ready(BeginHandle(q.sid, q.key)))
  {
    PutKeySound(w.store, q.key, q.sid);
    assert WithKey(w, r, q).store.keys == w.store.keys[q.key := q.sid];
    assert Labels.Fields("") == [];
    KnownAfterKeys(w, WithKey(w, r, q));
  }

  lemma KeyPut(cfg: Config, w: World, r: nat, q: Req)
    requires Before(cfg, w, r) && r in w.reqs && w.reqs[r] == q && q.Stored? && q.sid in w.store.sessions
    ensures Local(cfg, w, WithKey(w, r, q), r)
  {
    assert ReqOk(cfg, w, r, q);
    KeyPutGuarantee(cfg, w, r, q);
    KeyPutResult(cfg, w, r, q);
  }

  /** Sessions that keep a key stay keyed. */
  lemma KnownAfterKeys(w: World, t: World)
    requires Known(w) && t.next == w.next
    requires forall i <- t.status :: t.status[i].Held? ==> t.status[i].r < t.next
    requires w.status.Keys <= t.status.Keys && t.store.sessions.Keys <= w.store.sessions.Keys
    requires forall k <- t.store.keys :: k in t.status && t.store.keys[k] in t.begun
    requires forall id <- t.begun :: id in w.begun || (id in t.status && !Keyless(t.store, id))
    requires forall k <- w.store.keys :: (k in t.store.keys && t.store.keys[k] == w.store.keys[k]) || !Keyless(t.store, w.store.keys[k])
    ensures Known(t)
  {
  }

  /** A request that goes on to `q`, or ends, and leaves everything else alone. */
  lemma GoesOn(cfg: Config, w: World, r: nat, q: Req)
    requires Before(cfg, w, r) && r in w.reqs && ReqOk(cfg, w, r, q)
    ensures Local(cfg, w, With(w, r, q), r)
  {
  }

  lemma Ends(cfg: Config, w: World, r: nat)
    requires Before(cfg, w, r) && r in w.reqs
    ensures Local(cfg, w, End(w, r), r)
  {
  }

  lemma GetKeyStep(cfg: Config, w: World, a: Action)
    requires a.GetKey? && Before(cfg, w, a.r) && Enabled(cfg, w, a)
    ensures Local(cfg, w, Next(cfg, w, a), a.r)
  {
    var key := w.reqs[a.r].key;
    assert ReqOk(cfg, w, a.r, w.reqs[a.r]);
    if a.fails || key !in w.store.keys { Ends(cfg, w, a.r); } else { GoesOn(cfg, w, a.r, Keyed(key, w.store.keys[key])); }
  }

  lemma GetSessionStep(cfg: Config, w: World, a: Action)
    requires a.GetSession? && Before(cfg, w, a.r) && Enabled(cfg, w, a)
    ensures Local(cfg, w, Next(cfg, w, a), a.r)
  {
    var q := w.reqs[a.r];
    assert ReqOk(cfg, w, a.r, q);
    if a.fails || q.sid !in w.store.sessions {
      Ends(cfg, w, a.r);
    } else if Sessions.Expired(w.store.sessions[q.sid], a.at) {
      GoesOn(cfg, w, a.r, Stale(q.sid));
    } else {
      GoesOn(cfg, w, a.r, Read(q.key, q.sid, w.store.sessions[q.sid], a.at));
    }
  }

  lemma CacheStep(cfg: Config, w: World, a: Action)
    requires (a.GetCookies? || a.GetShas?) && Before(cfg, w, a.r) && Enabled(cfg, w, a)
    ensures Local(cfg, w, Next(cfg, w, a), a.r)
  {
    var h := w.reqs[a.r].h;
    assert ReqOk(cfg, w, a.r, w.reqs[a.r]);
    if a.fails {
      Ends(cfg, w, a.r);
    } else if a.GetCookies? {
      GoesOn(cfg, w, a.r, Cached(h.(cookies := RowOf(w.store.cookies, h.sid))));
    } else {
      GoesOn(cfg, w, a.r, Ready(h.(shas := RowOf(w.store.shas, h.sid))));
    }
  }

  lemma BindStep(cfg: Config, w: World, a: Action)
    requires a.StartBind? && Before(cfg, w, a.r) && Enabled(cfg, w, a)
    ensures Local(cfg, w, Next(cfg, w, a), a.r)
  {
    var h := w.reqs[a.r].h;
    assert ReqOk(cfg, w, a.r, w.reqs[a.r]);
    if !a.fails && h.sid in w.store.sessions {
      GoesOn(cfg, w, a.r, Binding(h, a.owner, a.owner != w.store.sessions[h.sid].owner && cfg.rotateOnLogin && h.rewrite));
    } else {
      GoesOn(cfg, w, a.r, w.reqs[a.r]);
      assert With(w, a.r, w.reqs[a.r]) == w;
    }
  }

  lemma ReadStep(cfg: Config, w: World, a: Action)
    requires a.GetKey? || a.GetSession? || a.GetCookies? || a.GetShas? || a.StartBind? || a.Drop?
    requires Before(cfg, w, a.r) && Enabled(cfg, w, a)
    ensures Local(cfg, w, Next(cfg, w, a), a.r)
  {
    if a.GetKey? { GetKeyStep(cfg, w, a); }
    else if a.GetSession? { GetSessionStep(cfg, w, a); }
    else if a.StartBind? { BindStep(cfg, w, a); }
    else if a.Drop? { Ends(cfg, w, a.r); }
    else { CacheStep(cfg, w, a); }
  }

  lemma DeliverStep(cfg: Config, w: World, a: Action)
    requires a.Deliver? && Before(cfg, w, a.r) && Enabled(cfg, w, a)
    ensures Local(cfg, w, Next(cfg, w, a), a.r)
  {
    assert ReqOk(cfg, w, a.r, w.reqs[a.r]);
    StillLocal(cfg, w, Next(cfg, w, a), a.r);
  }

  lemma TouchStep(cfg: Config, w: World, a: Action)
    requires a.Touch? && Before(cfg, w, a.r) && Enabled(cfg, w, a)
    ensures Local(cfg, w, Next(cfg, w, a), a.r)
  {
    var q := w.reqs[a.r];
    assert ReqOk(cfg, w, a.r, q);
    if a.fails || Stores.Touch(w.store, q.sid, q.key, q.at, LegacyRotation(cfg, q.x, q.at)).1 != Ok {
      Ends(cfg, w, a.r);
    } else {
      Touched(cfg, w, a.r, q);
    }
  }

  lemma Touched(cfg: Config, w: World, r: nat, q: Req)
    requires q.Read? && Before(cfg, w, r) && r in w.reqs && ReqOk(cfg, w, r, q)
    requires Stores.Touch(w.store, q.sid, q.key, q.at, LegacyRotation(cfg, q.x, q.at)).1 == Ok
    ensures Local(cfg, w, AfterTouch(cfg, w, r, q), r)
  {
    TouchSound(w.store, q.sid, q.key, q.at, LegacyRotation(cfg, q.x, q.at));
    TimeLocal(cfg, w, AfterTouch(cfg, w, r, q), r);
  }

  lemma DeleteStep(cfg: Config, w: World, a: Action)
    requires (a.DeleteExpired? || a.Revoke?) && Before(cfg, w, a.r) && Enabled(cfg, w, a)
    ensures Local(cfg, w, Next(cfg, w, a), a.r)
  {
    var t := Next(cfg, w, a);
    if a.fails {
      StillLocal(cfg, w, t, a.r);
    } else {
      var sid := if a.Revoke? then w.reqs[a.r].h.sid else w.reqs[a.r].sid;
      DeleteIsExpire(w.store, sid);
      ExpireLocal(cfg, w, t, a.r, {sid});
    }
  }

  lemma DeleteOwnedStep(cfg: Config, w: World, a: Action)
    requires a.DeleteOwned? && Before(cfg, w, a.r) && Enabled(cfg, w, a)
    ensures Local(cfg, w, Next(cfg, w, a), a.r)
  {
    var q := w.reqs[a.r];
    assert ReqOk(cfg, w, a.r, q);
    if a.fails {
      SweepsOn(cfg, w, a.r, q, a.sid);
    } else {
      DeleteByOwnerIsExpire(w.store, q.owner, a.sid);
      var t := Next(cfg, w, a);
      if t.store == w.store { SweepsOn(cfg, w, a.r, q, a.sid); } else { ExpireLocal(cfg, w, t, a.r, {a.sid}); }
    }
  }

  /** A sweep that changed nothing goes on or ends. */
  lemma SweepsOn(cfg: Config, w: World, r: nat, q: Req, sid: Id)
    requires Before(cfg, w, r) && r in w.reqs && w.reqs[r] == q && q.Revoking?
    ensures Local(cfg, w, if q.todo - {sid} == {} then End(w, r) else With(w, r, Revoking(q.owner, q.todo - {sid})), r)
  {
    if q.todo - {sid} == {} { Ends(cfg, w, r); } else { GoesOn(cfg, w, r, Revoking(q.owner, q.todo - {sid})); }
  }

  lemma ExpireStep(cfg: Config, w: World, a: Action)
    requires Before(cfg, w, w.next) && w.next !in w.reqs && Enabled(cfg, w, a) && a.Expire?
    ensures Local(cfg, w, Next(cfg, w, a), w.next)
  {
    ExpireLocal(cfg, w, Next(cfg, w, a), w.next, a.ids);
  }

  /** What `applyControls` decides respects the rule on changing rights. */
  lemma DecisionOk(cfg: Config, w: World, r: nat, h: Handle, g: Handle, suppressed: bool, ask: Ask, at: int, mint: Id)
    requires Sound(w.store) && Known(w) && HandleOk(cfg, w, r, h) && h.sid in w.store.sessions && mint !in w.status
    requires ask.owner.Some? ==> ask.owner.value > 0
    requires g == Unpended(h, suppressed)
    requires suppressed ==> cfg.rotateOnLogin && h.rewrite && ask.owner.Some? && w.store.sessions[h.sid].owner != ask.owner.value
    ensures var x := w.store.sessions[h.sid];
            var c := Decide(cfg, g, x, at, ask, mint);
            && AfterOk(cfg, h, Committed(g, ask, c), c, x)
            && (c.setLabels || (cfg.rotateOnLogin && c.setOwner) ==> c.rotate || h.rewrite)
            && (c.setOwner ==> c.owner > 0) && c.oldKey == h.key
            && (c.rotate ==> c.newKey == mint)
            && (NothingToDo(c) ==> g == h && HandleOk(cfg, w, r, Granted(g, ask)))
  {
  }

  lemma ControlsStep(cfg: Config, w: World, a: Action)
    requires a.ReadControls? && Before(cfg, w, a.r) && Enabled(cfg, w, a)
    ensures Local(cfg, w, Next(cfg, w, a), a.r)
  {
    var q := w.reqs[a.r];
    assert ReqOk(cfg, w, a.r, q);
    if a.fails { GoesOn(cfg, w, a.r, Ready(q.h)); } else { ControlsLocal(cfg, w, a.r, q.h, q.Binding? && q.suppressed, a.ask, a.at, a.mint); }
  }

  lemma ControlsLocal(cfg: Config, w: World, r: nat, h: Handle, suppressed: bool, ask: Ask, at: int, mint: Id)
    requires Before(cfg, w, r) && r in w.reqs && HandleOk(cfg, w, r, h) && mint !in w.status
    requires ask.owner.Some? ==> ask.owner.value > 0
    requires suppressed && h.sid in w.store.sessions ==>
               cfg.rotateOnLogin && h.rewrite && ask.owner.Some? && w.store.sessions[h.sid].owner != ask.owner.value
    ensures Local(cfg, w, AfterControls(cfg, w, r, h, Unpended(h, suppressed), ask, at, mint), r)
  {
    if h.sid !in w.store.sessions {
      GoesOn(cfg, w, r, Ready(h));
    } else {
      var g, x := Unpended(h, suppressed), w.store.sessions[h.sid];
      DecisionOk(cfg, w, r, h, g, suppressed, ask, at, mint);
      var c := Decide(cfg, g, x, at, ask, mint);
      if NothingToDo(c) {
        GoesOn(cfg, w, r, Ready(Granted(g, ask)));
      } else {
        DecidedLocal(cfg, w, r, h, Committed(g, ask, c), c, mint);
      }
    }
  }

  /** A request that has decided, and minted an identifier if it is to rotate. */
  lemma DecidedLocal(cfg: Config, w: World, r: nat, h: Handle, after: Handle, c: Controls, mint: Id)
    requires Before(cfg, w, r) && r in w.reqs && HandleOk(cfg, w, r, h) && h.sid in w.store.sessions && mint !in w.status
    requires AfterOk(cfg, h, after, c, w.store.sessions[h.sid]) && c.oldKey == h.key && (c.rotate ==> c.newKey == mint)
    requires (c.setLabels || (cfg.rotateOnLogin && c.setOwner) ==> c.rotate || h.rewrite) && (c.setOwner ==> c.owner > 0)
    ensures Local(cfg, w, With(w.(status := if c.rotate then w.status[mint := Held(r)] else w.status), r,
                               Deciding(h, after, c, w.store.sessions[h.sid])), r)
  {
    StillLocal(cfg, w, With(w.(status := if c.rotate then w.status[mint := Held(r)] else w.status), r,
                            Deciding(h, after, c, w.store.sessions[h.sid])), r);
  }

  lemma RotateStep(cfg: Config, w: World, a: Action)
    requires a.ReadRotate? && Before(cfg, w, a.r) && Enabled(cfg, w, a)
    ensures Local(cfg, w, Next(cfg, w, a), a.r)
  {
    var h := w.reqs[a.r].h;
    assert ReqOk(cfg, w, a.r, w.reqs[a.r]);
    if Next(cfg, w, a) == w {
      StillLocal(cfg, w, w, a.r);
    } else {
      DecidedLocal(cfg, w, a.r, h, Rekeyed(h, RotateOnly(h, a.mint, a.at)), RotateOnly(h, a.mint, a.at), a.mint);
    }
  }

  // ---- the commit ------------------------------------------------------------

  lemma CommitKeys(cfg: Config, w: World, t: World, r: nat, h: Handle, c: Controls)
    requires Rooted(w.store) && HandleOk(cfg, w, r, h) && ControlsOk(cfg, w, r, h, c)
    requires c.rotate ==> MayAdd(w, r, c.newKey)
    requires Apply(w.store, h.sid, c) == (t.store, Ok) && t.begun == w.begun
    ensures SessionStep(w, t, r) && KeyStep(w, t, r)
  {
    var last := if c.rotate then c.newKey else c.oldKey;
    assert t.store.keys[last] == h.sid;
    forall id | Keyless(w.store, id) ensures Keyless(t.store, id) {
      assert w.store.keys[c.oldKey] != id;
    }
  }

  lemma CommitKnown(cfg: Config, w: World, t: World, r: nat, h: Handle, c: Controls)
    requires Rooted(w.store) && Known(w) && HandleOk(cfg, w, r, h) && ControlsOk(cfg, w, r, h, c)
    requires Apply(w.store, h.sid, c) == (t.store, Ok) && t.status == w.status && t.begun == w.begun && t.next == w.next
    ensures Known(t)
  {
    var last := if c.rotate then c.newKey else c.oldKey;
    assert t.store.keys[last] == h.sid;
    assert !Keyless(t.store, h.sid);
    assert t.store.sessions.Keys == w.store.sessions.Keys;
    forall id | id in t.begun && id in t.store.sessions ensures !Keyless(t.store, id) {
      var k :| k in w.store.keys && w.store.keys[k] == id;
      if k != c.oldKey { assert t.store.keys[k] == id; }
    }
  }

  lemma CommitRights(cfg: Config, w: World, t: World, r: nat, h: Handle, c: Controls)
    requires Sound(w.store) && Known(w) && HandleOk(cfg, w, r, h) && ControlsOk(cfg, w, r, h, c)
    requires Apply(w.store, h.sid, c) == (t.store, Ok)
    ensures RightsStep(cfg, w, t, r)
  {
  }

  lemma CommitHandle(cfg: Config, w: World, t: World, r: nat, h: Handle, after: Handle, c: Controls, x: Session)
    requires Sound(w.store) && Known(w) && HandleOk(cfg, w, r, h) && ControlsOk(cfg, w, r, h, c) && AfterOk(cfg, h, after, c, x)
    requires ReadOk(cfg, w, h.key, h.sid, x)
    requires Apply(w.store, h.sid, c) == (t.store, Ok) && t.status == w.status && t.begun == w.begun
    ensures HandleOk(cfg, t, r, after)
  {
  }

  lemma CommitGuarantee(cfg: Config, w: World, t: World, r: nat, h: Handle, c: Controls)
    requires Sound(w.store) && Known(w) && HandleOk(cfg, w, r, h) && ControlsOk(cfg, w, r, h, c)
    requires c.rotate ==> MayAdd(w, r, c.newKey)
    requires Apply(w.store, h.sid, c) == (t.store, Ok) && t.begun == w.begun && t.status == w.status
    ensures Guarantee(cfg, w, t, r)
  {
    CommitKeys(cfg, w, t, r, h, c);
    CommitRights(cfg, w, t, r, h, c);
  }

  lemma CommitResult(cfg: Config, w: World, t: World, r: nat, q: Req)
    requires q.Deciding? && Sound(w.store) && Known(w) && ReqOk(cfg, w, r, q)
    requires Apply(w.store, q.h.sid, q.c) == (t.store, Ok) && t.begun == w.begun && t.status == w.status && t.next == w.next
    ensures Sound(t.store) && Known(t) && ReqOk(cfg, t, r, Ready(q.after))
  {
    ApplySound(w.store, q.h.sid, q.c);
    CommitKnown(cfg, w, t, r, q.h, q.c);
    CommitHandle(cfg, w, t, r, q.h, q.after, q.c, q.x);
  }

  lemma CommitSucceeds(cfg: Config, w: World, t: World, r: nat, q: Req)
    requires q.Deciding? && Before(cfg, w, r) && r in w.reqs && w.reqs[r] == q
    requires Apply(w.store, q.h.sid, q.c) == (t.store, Ok) && t == With(w.(store := t.store), r, Ready(q.after))
    ensures Local(cfg, w, t, r)
  {
    assert ReqOk(cfg, w, r, q);
    CommitGuarantee(cfg, w, t, r, q.h, q.c);
    CommitResult(cfg, w, t, r, q);
  }

  lemma CommitStep(cfg: Config, w: World, a: Action)
    requires a.Commit? && Before(cfg, w, a.r) && Enabled(cfg, w, a)
    ensures Local(cfg, w, Next(cfg, w, a), a.r)
  {
    var t := Next(cfg, w, a);
    var q := w.reqs[a.r];
    if a.fails || Apply(w.store, q.h.sid, q.c).1 != Ok {
      StillLocal(cfg, w, t, a.r);
    } else {
      CommitSucceeds(cfg, w, t, a.r, q);
    }
  }

  lemma StartLocal(cfg: Config, w: World, a: Action)
    requires Before(cfg, w, w.next) && w.next !in w.reqs && Enabled(cfg, w, a)
    requires a.Begin? || a.Present? || a.ListOwner? || a.Expire?
    ensures Local(cfg, w, Next(cfg, w, a), w.next)
  {
    if a.Expire? { ExpireStep(cfg, w, a); } else { BeginStep(cfg, w, a); }
  }

  lemma RequestLocal(cfg: Config, w: World, a: Action)
    requires !(a.Begin? || a.Present? || a.ListOwner? || a.Expire?)
    requires Before(cfg, w, a.r) && Enabled(cfg, w, a)
    ensures Local(cfg, w, Next(cfg, w, a), a.r)
  {
    if a.PutSession? { PutSessionStep(cfg, w, a); }
    else if a.PutKey? { PutKeyStep(cfg, w, a); }
    else if a.GetKey? || a.GetSession? || a.GetCookies? || a.GetShas? || a.StartBind? || a.Drop? { ReadStep(cfg, w, a); }
    else if a.DeleteExpired? || a.Revoke? { DeleteStep(cfg, w, a); }
    else if a.Touch? { TouchStep(cfg, w, a); }
    else if a.ReadControls? { ControlsStep(cfg, w, a); }
    else if a.ReadRotate? { RotateStep(cfg, w, a); }
    else if a.Commit? { CommitStep(cfg, w, a); }
    else if a.Deliver? { DeliverStep(cfg, w, a); }
    else { DeleteOwnedStep(cfg, w, a); }
  }

  /** One step of anything keeps the invariant and its guarantee. */
  lemma Step(cfg: Config, w: World, a: Action)
    requires Inv(cfg, w) && Enabled(cfg, w, a)
    ensures Inv(cfg, Next(cfg, w, a)) && Local(cfg, w, Next(cfg, w, a), Actor(w, a))
  {
    if a.Begin? || a.Present? || a.ListOwner? || a.Expire? {
      StartLocal(cfg, w, a);
    } else {
      RequestLocal(cfg, w, a);
    }
    LocalSuffices(cfg, w, Next(cfg, w, a), Actor(w, a));
  }
}
