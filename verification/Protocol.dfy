/** The session and key protocol under arbitrary interleaving.

    Every request is a sequence of store steps; each step is atomic and steps of
    different requests interleave freely. A `World` is the store, the requests in
    flight, and who knows which identifier. Identifiers are minted once; clients
    present keys that were delivered to them or that they made up. */
module Protocol {
  import opened Stores
  import opened Sessions
  import Labels

  /** An identifier is private to the request that minted it until a response
      carries it to a client. Clients may know made-up identifiers as well. */
  datatype Status = Held(r: nat) | Public

  /** Where a request is, named after the store step it has taken last. */
  datatype Req =
    | Minted(sid: Id, key: Id, x: Session)
    | Stored(sid: Id, key: Id)
    | Presented(key: Id)
    | Keyed(key: Id, sid: Id)
    | Read(key: Id, sid: Id, x: Session, at: int)
    | Stale(sid: Id)
    | Resolved(h: Handle)
    | Cached(h: Handle)
    | Ready(h: Handle)
    | Binding(h: Handle, owner: int, suppressed: bool)
    | Deciding(h: Handle, after: Handle, c: Controls, x: Session)
    | Revoking(owner: int, todo: set<Id>)

  /** `begun` collects the sessions whose creation completed. */
  datatype World = World(store: Store, status: map<Id, Status>, reqs: map<nat, Req>, next: nat, begun: set<Id>)

  const INITIAL := World(EMPTY, map[], map[], 0, {})

  /** A step that `fails` has no effect on the store; one that reads and then cannot mint
      the identifier it needs counts as failed. `stale` in `ListOwner` are listed members that are no longer live or bound. */
  datatype Action =
    | Begin(sid: Id, key: Id, at: int)
    | PutSession(r: nat, fails: bool)
    | PutKey(r: nat, fails: bool)
    | Present(key: Id)
    | GetKey(r: nat, fails: bool)
    | GetSession(r: nat, fails: bool, at: int)
    | DeleteExpired(r: nat, fails: bool)
    | Touch(r: nat, fails: bool)
    | GetCookies(r: nat, fails: bool)
    | GetShas(r: nat, fails: bool)
    | StartBind(r: nat, owner: int, fails: bool)
    | ReadControls(r: nat, ask: Ask, at: int, mint: Id, fails: bool)
    | ReadRotate(r: nat, force: bool, at: int, mint: Id, fails: bool)
    | Commit(r: nat, fails: bool)
    | Revoke(r: nat, fails: bool)
    | Deliver(r: nat)
    | Drop(r: nat)
    | ListOwner(owner: int, stale: set<Id>)
    | DeleteOwned(r: nat, sid: Id, fails: bool)
    | Expire(ids: set<Id>)

  function With(w: World, r: nat, q: Req): World { w.(reqs := w.reqs[r := q]) }

  function End(w: World, r: nat): World { w.(reqs := w.reqs - {r}) }

  function Start(w: World, q: Req): World { w.(reqs := w.reqs[w.next := q], next := w.next + 1) }

  predicate At(w: World, r: nat) { r in w.reqs }

  // ---- steps ----------------------------------------------------------------

  predicate Enabled(cfg: Config, w: World, a: Action) {
    match a
    case Begin(sid, key, _) => sid !in w.status && key !in w.status && sid != key
    case PutSession(r, _) => At(w, r) && w.reqs[r].Minted?
    case PutKey(r, _) => At(w, r) && w.reqs[r].Stored?
    case Present(key) => key in w.status ==> w.status[key] == Public
    case GetKey(r, _) => At(w, r) && w.reqs[r].Presented?
    case GetSession(r, _, _) => At(w, r) && w.reqs[r].Keyed?
    case DeleteExpired(r, _) => At(w, r) && w.reqs[r].Stale?
    case Touch(r, _) => At(w, r) && w.reqs[r].Read?
    case GetCookies(r, _) => At(w, r) && w.reqs[r].Resolved?
    case GetShas(r, _) => At(w, r) && w.reqs[r].Cached?
    case StartBind(r, owner, _) => At(w, r) && w.reqs[r].Ready? && owner > 0
    case ReadControls(r, ask, _, mint, _) =>
      && At(w, r) && mint !in w.status
      && (ask.owner.Some? ==> ask.owner.value > 0)
      && (w.reqs[r].Ready? || (w.reqs[r].Binding? && ask == Ask(Some(w.reqs[r].owner), None, false, false, [])))
    case ReadRotate(r, _, _, mint, _) => At(w, r) && mint !in w.status && w.reqs[r].Ready?
    case Commit(r, _) => At(w, r) && w.reqs[r].Deciding?
    case Revoke(r, _) => At(w, r) && w.reqs[r].Ready?
    case Deliver(r) => At(w, r) && w.reqs[r].Ready?
    case Drop(r) => At(w, r) && !w.reqs[r].Revoking?
    case ListOwner(owner, _) => owner > 0
    case DeleteOwned(r, sid, _) => At(w, r) && w.reqs[r].Revoking? && sid in w.reqs[r].todo
    case Expire(_) => true
  }

  /** `Manager.Resolve` after its session read. */
  function AfterRead(cfg: Config, w: World, r: nat, key: Id, sid: Id, at: int): World {
    if sid !in w.store.sessions then End(w, r)
    else if Sessions.Expired(w.store.sessions[sid], at) then With(w, r, Stale(sid))
    else With(w, r, Read(key, sid, w.store.sessions[sid], at))
  }

  function AfterTouch(cfg: Config, w: World, r: nat, q: Req): World
    requires q.Read?
  {
    var t := Stores.Touch(w.store, q.sid, q.key, q.at, LegacyRotation(cfg, q.x, q.at));
    if t.1 != Ok then End(w, r)
    else With(w.(store := t.0), r, Resolved(ResolvedHandle(cfg, q.key, q.sid, q.x, q.at)))
  }

  /** `applyControls` after its session read; `g` is the handle it decides for and
      `h` the handle it falls back to. */
  function AfterControls(cfg: Config, w: World, r: nat, h: Handle, g: Handle, ask: Ask, at: int, mint: Id): World {
    if h.sid !in w.store.sessions then With(w, r, Ready(h))
    else
      var x := w.store.sessions[h.sid];
      var c := Decide(cfg, g, x, at, ask, mint);
      if NothingToDo(c) then With(w, r, Ready(Granted(g, ask)))
      else With(w.(status := if c.rotate then w.status[mint := Held(r)] else w.status), r,
                Deciding(h, Committed(g, ask, c), c, x))
  }

  function AfterRotate(cfg: Config, w: World, r: nat, h: Handle, force: bool, at: int, mint: Id): World {
    if h.sid !in w.store.sessions || h.rewrite then w
    else if !force && (!h.rotateDue || at - w.store.sessions[h.sid].lastRotation < Seconds(cfg.rotateInterval)) then w
    else
      var c := RotateOnly(h, mint, at);
      With(w.(status := w.status[mint := Held(r)]), r, Deciding(h, Rekeyed(h, c), c, w.store.sessions[h.sid]))
  }

  function AfterCommit(w: World, r: nat, q: Req, fails: bool): World
    requires q.Deciding?
  {
    var t := Apply(w.store, q.h.sid, q.c);
    if fails || t.1 != Ok then With(w, r, Ready(q.h)) else With(w.(store := t.0), r, Ready(q.after))
  }

  /** `BindOwner` lets an owner change rotate even a key that is not delivered yet. */
  function Unpended(h: Handle, suppressed: bool): Handle {
    if suppressed then h.(rewrite := false, newKey := "") else h
  }

  function Next(cfg: Config, w: World, a: Action): World
    requires Enabled(cfg, w, a)
  {
    match a
    case Begin(sid, key, at) =>
      Start(w.(status := w.status[sid := Held(w.next)][key := Held(w.next)]), Minted(sid, key, NewSession(cfg, at)))
    case PutSession(r, fails) =>
      var q := w.reqs[r];
      if fails then End(w, r) else With(w.(store := Stores.PutSession(w.store, q.sid, q.x)), r, Stored(q.sid, q.key))
    case PutKey(r, fails) =>
      var q := w.reqs[r];
      var t := Stores.PutKey(w.store, q.key, q.sid);
      if fails || t.1 != Ok then End(w, r)
      else With(w.(store := t.0, begun := w.begun + {q.sid}), r, Ready(BeginHandle(q.sid, q.key)))
    case Present(key) => Start(w.(status := w.status[key := Public]), Presented(key))
    case GetKey(r, fails) =>
      var key := w.reqs[r].key;
      if fails || key !in w.store.keys then End(w, r) else With(w, r, Keyed(key, w.store.keys[key]))
    case GetSession(r, fails, at) =>
      if fails then End(w, r) else AfterRead(cfg, w, r, w.reqs[r].key, w.reqs[r].sid, at)
    case DeleteExpired(r, fails) =>
      if fails then End(w, r) else End(w.(store := Delete(w.store, w.reqs[r].sid)), r)
    case Touch(r, fails) => if fails then End(w, r) else AfterTouch(cfg, w, r, w.reqs[r])
    case GetCookies(r, fails) =>
      var h := w.reqs[r].h;
      if fails then End(w, r) else With(w, r, Cached(h.(cookies := RowOf(w.store.cookies, h.sid))))
    case GetShas(r, fails) =>
      var h := w.reqs[r].h;
      if fails then End(w, r) else With(w, r, Ready(h.(shas := RowOf(w.store.shas, h.sid))))
    case StartBind(r, owner, fails) =>
      var h := w.reqs[r].h;
      if fails || h.sid !in w.store.sessions then w
      else With(w, r, Binding(h, owner, owner != w.store.sessions[h.sid].owner && cfg.rotateOnLogin && h.rewrite))
    case ReadControls(r, ask, at, mint, fails) =>
      var q := w.reqs[r];
      if fails then With(w, r, Ready(q.h)) else AfterControls(cfg, w, r, q.h, Unpended(q.h, q.Binding? && q.suppressed), ask, at, mint)
    case ReadRotate(r, force, at, mint, fails) => if fails then w else AfterRotate(cfg, w, r, w.reqs[r].h, force, at, mint)
    case Commit(r, fails) => AfterCommit(w, r, w.reqs[r], fails)
    case Revoke(r, fails) => if fails then w else End(w.(store := Delete(w.store, w.reqs[r].h.sid)), r)
    case Deliver(r) =>
      var h := w.reqs[r].h;
      End(if h.rewrite then w.(status := w.status[h.newKey := Public]) else w, r)
    case Drop(r) => End(w, r)
    case ListOwner(owner, stale) => Start(w, Revoking(owner, Members(w.store.owners, owner) + stale))
    case DeleteOwned(r, sid, fails) =>
      var q := w.reqs[r];
      var u := if fails then w else w.(store := DeleteByOwner(w.store, q.owner, sid).0);
      if q.todo - {sid} == {} then End(u, r) else With(u, r, Revoking(q.owner, q.todo - {sid}))
    case Expire(ids) => w.(store := Stores.Expire(w.store, ids))
  }

  // ---- the invariant ----------------------------------------------------------

  /** The rights a key carries: its session's labels, and its owner when an owner
      change rotates. */
  predicate SameRights(cfg: Config, x: Session, y: Session) {
    x.labels == y.labels && (cfg.rotateOnLogin ==> x.owner == y.owner)
  }

  predicate HeldBy(w: World, i: Id, r: nat) { i in w.status && w.status[i] == Held(r) }

  predicate IsPublic(w: World, i: Id) { i in w.status && w.status[i] == Public }

  predicate KeyOf(s: Store, key: Id, sid: Id) {
    key in s.keys ==> s.keys[key] == sid && sid in s.sessions
  }

  ghost predicate Keyless(s: Store, sid: Id) { forall k <- s.keys :: s.keys[k] != sid }

  /** A handle with a pending key owns it; any other handle uses a public key. While
      its key is live, a handle shows the rights stored in the session. */
  predicate HandleOk(cfg: Config, w: World, r: nat, h: Handle) {
    && KeyOf(w.store, h.key, h.sid) && h.sid in w.begun
    && (if h.rewrite
        then HeldBy(w, h.key, r) && h.newKey == h.key && (h.sid in w.store.sessions ==> h.key in w.store.keys)
        else IsPublic(w, h.key))
    && (h.key in w.store.keys ==>
          && h.labels == Labels.Fields(w.store.sessions[h.sid].labels)
          && (cfg.rotateOnLogin ==> h.owner == w.store.sessions[h.sid].owner))
  }

  predicate ReadOk(cfg: Config, w: World, key: Id, sid: Id, x: Session) {
    key in w.store.keys && sid in w.store.sessions ==> SameRights(cfg, x, w.store.sessions[sid])
  }

  /** A transition that changes rights either swaps the key or uses an undelivered one. */
  predicate ControlsOk(cfg: Config, w: World, r: nat, h: Handle, c: Controls) {
    && c.oldKey == h.key
    && (c.rotate ==> HeldBy(w, c.newKey, r) && c.newKey !in w.store.keys && c.newKey != h.key)
    && (c.setLabels || (cfg.rotateOnLogin && c.setOwner) ==> c.rotate || h.rewrite)
    && (c.setOwner ==> c.owner > 0)
  }

  /** The handle a successful commit leaves behind. */
  predicate AfterOk(cfg: Config, h: Handle, after: Handle, c: Controls, x: Session) {
    && after.sid == h.sid
    && after.key == (if c.rotate then c.newKey else h.key)
    && after.rewrite == (c.rotate || h.rewrite)
    && (after.rewrite ==> after.newKey == after.key)
    && (if c.setLabels then after.labels == Labels.Fields(c.labels)
        else after.labels == h.labels || after.labels == Labels.Fields(x.labels))
    && (if c.setOwner then after.owner == c.owner else after.owner == h.owner || after.owner == x.owner)
  }

  ghost predicate ReqOk(cfg: Config, w: World, r: nat, q: Req) {
    match q
    case Minted(sid, key, x) =>
      && HeldBy(w, sid, r) && HeldBy(w, key, r)
      && sid !in w.store.sessions && sid !in w.begun && key !in w.store.keys && x == NewSession(cfg, x.creation)
    case Stored(sid, key) => HeldBy(w, sid, r) && HeldBy(w, key, r) && key !in w.store.keys && Keyless(w.store, sid)
                             && (sid in w.store.sessions ==> w.store.sessions[sid].owner == 0 && w.store.sessions[sid].labels == "")
    case Presented(key) => IsPublic(w, key)
    case Keyed(key, sid) => IsPublic(w, key) && KeyOf(w.store, key, sid) && sid in w.begun
    case Read(key, sid, x, _) => IsPublic(w, key) && KeyOf(w.store, key, sid) && sid in w.begun && ReadOk(cfg, w, key, sid, x)
    case Stale(_) => true
    case Resolved(h) => HandleOk(cfg, w, r, h)
    case Cached(h) => HandleOk(cfg, w, r, h)
    case Ready(h) => HandleOk(cfg, w, r, h)
    case Binding(h, owner, suppressed) =>
      && HandleOk(cfg, w, r, h) && owner > 0
      && (suppressed ==> cfg.rotateOnLogin && h.rewrite && (h.sid in w.store.sessions ==> w.store.sessions[h.sid].owner != owner))
    case Deciding(h, after, c, x) =>
      HandleOk(cfg, w, r, h) && ControlsOk(cfg, w, r, h, c) && AfterOk(cfg, h, after, c, x) && ReadOk(cfg, w, h.key, h.sid, x)
    case Revoking(owner, _) => owner > 0
  }

  ghost predicate Known(w: World) {
    && (forall k <- w.store.keys :: k in w.status && w.store.keys[k] in w.begun)
    && (forall id <- w.store.sessions :: id in w.status)
    && (forall i <- w.status :: w.status[i].Held? ==> w.status[i].r < w.next)
    && (forall id <- w.begun :: id in w.status && (id in w.store.sessions ==> !Keyless(w.store, id)))
  }

  ghost predicate ReqsOk(cfg: Config, w: World) {
    forall r <- w.reqs :: r < w.next && ReqOk(cfg, w, r, w.reqs[r])
  }

  ghost predicate Inv(cfg: Config, w: World) {
    Sound(w.store) && Known(w) && ReqsOk(cfg, w)
  }

  // ---- what a step of request r does to everybody else ---------------------------

  /** `key` is an identifier the request will put into the key map. */
  predicate Pending(q: Req, key: Id) {
    match q
    case Minted(_, k, _) => k == key
    case Stored(_, k) => k == key
    case Deciding(_, _, c, _) => c.rotate && c.newKey == key
    case _ => false
  }

  predicate MayAdd(w: World, r: nat, key: Id) { r in w.reqs && Pending(w.reqs[r], key) && HeldBy(w, key, r) }

  predicate MayCreate(w: World, r: nat, sid: Id) {
    r in w.reqs && w.reqs[r].Minted? && w.reqs[r].sid == sid && HeldBy(w, sid, r) && sid !in w.begun
  }

  ghost predicate StatusStep(w: World, t: World, r: nat) {
    forall i <- w.status :: i in t.status && (t.status[i] == w.status[i] || w.status[i] == Held(r))
  }

  ghost predicate SessionStep(w: World, t: World, r: nat) {
    && w.begun <= t.begun && (forall id <- t.begun :: id in w.begun || HeldBy(w, id, r)) &&
    forall id <- t.store.sessions :: id in w.store.sessions || MayCreate(w, r, id)
  }

  ghost predicate KeyStep(w: World, t: World, r: nat) {
    && (forall k <- t.store.keys :: if k in w.store.keys then t.store.keys[k] == w.store.keys[k] else MayAdd(w, r, k))
    && (forall id :: Keyless(w.store, id) && !HeldBy(w, id, r) ==> Keyless(t.store, id))
    && (forall k <- w.store.keys :: k !in t.store.keys ==>
          IsPublic(w, k) || HeldBy(w, k, r) || w.store.keys[k] !in t.store.sessions)
  }

  ghost predicate RightsStep(cfg: Config, w: World, t: World, r: nat) {
    && (forall k <- w.store.keys :: k in t.store.keys && !HeldBy(w, k, r) ==>
          && w.store.keys[k] in w.store.sessions && w.store.keys[k] in t.store.sessions
          && SameRights(cfg, w.store.sessions[w.store.keys[k]], t.store.sessions[w.store.keys[k]]))
    && (forall id <- w.store.sessions :: id in t.store.sessions && Keyless(w.store, id) ==>
          t.store.sessions[id].owner == w.store.sessions[id].owner && t.store.sessions[id].labels == w.store.sessions[id].labels)
  }

  ghost predicate Guarantee(cfg: Config, w: World, t: World, r: nat) {
    StatusStep(w, t, r) && SessionStep(w, t, r) && KeyStep(w, t, r) && RightsStep(cfg, w, t, r)
  }

  /** A handle survives other requests' steps. */
  lemma HandleStable(cfg: Config, w: World, t: World, r: nat, q: nat, h: Handle)
    requires Sound(w.store) && Sound(t.store) && Guarantee(cfg, w, t, r) && q != r && HandleOk(cfg, w, q, h)
    ensures HandleOk(cfg, t, q, h)
  {
  }

  /** So does every request at any point of its run. */
  lemma ReqStable(cfg: Config, w: World, t: World, r: nat, q: nat, m: Req)
    requires Sound(w.store) && Sound(t.store) && Guarantee(cfg, w, t, r) && q != r && ReqOk(cfg, w, q, m)
    ensures ReqOk(cfg, t, q, m)
  {
    match m
    case Minted(sid, key, x) =>
      assert sid in t.status && key in t.status && !MayAdd(w, r, key);
    case Stored(sid, key) =>
      assert sid in t.status && key in t.status && !MayAdd(w, r, key);
    case Presented(key) =>
      assert key in t.status;
    case Keyed(key, sid) =>
      assert key in t.status && !MayAdd(w, r, key);
    case Read(key, sid, x, _) =>
      assert key in t.status && !MayAdd(w, r, key);
    case Stale(_) =>
    case Resolved(h) => HandleStable(cfg, w, t, r, q, h);
    case Cached(h) => HandleStable(cfg, w, t, r, q, h);
    case Ready(h) => HandleStable(cfg, w, t, r, q, h);
    case Binding(h, owner, suppressed) =>
      HandleStable(cfg, w, t, r, q, h);
      if suppressed && h.sid in t.store.sessions {
        assert h.sid in w.store.sessions;
      }
    case Deciding(h, after, c, x) =>
      HandleStable(cfg, w, t, r, q, h);
      if c.rotate { assert c.newKey in t.status && !MayAdd(w, r, c.newKey); }
      assert !MayAdd(w, r, h.key);
    case Revoking(_, _) =>
  }

  /** What must be shown of one step of request r. */
  ghost predicate Local(cfg: Config, w: World, t: World, r: nat) {
    && Sound(t.store) && Known(t) && w.next <= t.next && Guarantee(cfg, w, t, r)
    && (r in t.reqs ==> r < t.next && ReqOk(cfg, t, r, t.reqs[r]))
    && (forall q <- t.reqs :: q != r ==> q in w.reqs && t.reqs[q] == w.reqs[q])
  }

  /** What a step of request r may use. */
  ghost predicate Before(cfg: Config, w: World, r: nat) {
    Sound(w.store) && Known(w) && (r in w.reqs ==> r < w.next && ReqOk(cfg, w, r, w.reqs[r]))
  }

  lemma LocalSuffices(cfg: Config, w: World, t: World, r: nat)
    requires Inv(cfg, w) && Local(cfg, w, t, r)
    ensures Inv(cfg, t)
  {
    forall q | q in t.reqs && q != r ensures ReqOk(cfg, t, q, t.reqs[q]) && q < t.next {
      ReqStable(cfg, w, t, r, q, w.reqs[q]);
    }
  }

  function Actor(w: World, a: Action): nat {
    match a
    case PutSession(r, _) => r
    case PutKey(r, _) => r
    case GetKey(r, _) => r
    case GetSession(r, _, _) => r
    case DeleteExpired(r, _) => r
    case Touch(r, _) => r
    case GetCookies(r, _) => r
    case GetShas(r, _) => r
    case StartBind(r, _, _) => r
    case ReadControls(r, _, _, _, _) => r
    case ReadRotate(r, _, _, _, _) => r
    case Commit(r, _) => r
    case Revoke(r, _) => r
    case Deliver(r) => r
    case Drop(r) => r
    case DeleteOwned(r, _, _) => r
    case _ => w.next
  }

  /** A step that leaves the store alone. */
  lemma StillLocal(cfg: Config, w: World, t: World, r: nat)
    requires Before(cfg, w, r) && t.store == w.store && t.begun == w.begun && w.next <= t.next
    requires StatusStep(w, t, r)
    requires forall i <- t.status :: t.status[i].Held? ==> t.status[i].r < t.next
    requires r in t.reqs ==> r < t.next && ReqOk(cfg, t, r, t.reqs[r])
    requires forall q <- t.reqs :: q != r ==> q in w.reqs && t.reqs[q] == w.reqs[q]
    ensures Local(cfg, w, t, r)
  {
  }

  /** A step that only moves time stamps. */
  lemma TimeLocal(cfg: Config, w: World, t: World, r: nat)
    requires Before(cfg, w, r) && t.status == w.status && t.begun == w.begun && t.next == w.next
    requires Sound(t.store) && t.store.keys == w.store.keys && t.store.sessions.Keys == w.store.sessions.Keys
    requires forall id <- w.store.sessions :: t.store.sessions[id].owner == w.store.sessions[id].owner
                                           && t.store.sessions[id].labels == w.store.sessions[id].labels
    requires r in t.reqs ==> r < t.next && ReqOk(cfg, t, r, t.reqs[r])
    requires forall q <- t.reqs :: q != r ==> q in w.reqs && t.reqs[q] == w.reqs[q]
    ensures Local(cfg, w, t, r)
  {
    assert forall id :: Keyless(t.store, id) == Keyless(w.store, id);
  }

  lemma ExpireGuarantee(cfg: Config, w: World, t: World, r: nat, ids: set<Id>)
    requires Sound(w.store) && t.store == Stores.Expire(w.store, ids) && t.status == w.status && t.begun == w.begun
    ensures Guarantee(cfg, w, t, r)
  {
  }

  lemma ExpireKnown(w: World, t: World, ids: set<Id>)
    requires Known(w) && t.store == Stores.Expire(w.store, ids) && t.status == w.status && t.begun == w.begun && t.next == w.next
    ensures Known(t)
  {
    forall id | id in w.begun && id in t.store.sessions ensures !Keyless(t.store, id) {
      var k :| k in w.store.keys && w.store.keys[k] == id;
      assert k in t.store.keys;
    }
  }

  /** Deleting sessions with everything that belongs to them. */
  lemma ExpireLocal(cfg: Config, w: World, t: World, r: nat, ids: set<Id>)
    requires Before(cfg, w, r) && t.store == Stores.Expire(w.store, ids) && t.status == w.status && t.begun == w.begun && t.next == w.next
    requires r !in t.reqs || (r < w.next && t.reqs[r].Revoking? && t.reqs[r].owner > 0)
    requires forall q <- t.reqs :: q != r ==> q in w.reqs && t.reqs[q] == w.reqs[q]
    ensures Local(cfg, w, t, r)
  {
    ExpireSound(w.store, ids);
    ExpireGuarantee(cfg, w, t, r, ids);
    ExpireKnown(w, t, ids);
  }
}
