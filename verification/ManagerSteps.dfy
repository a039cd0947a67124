/** The manager's operations are runs of the protocol: interleaved with anything other
    requests do, an operation takes the store steps and leaves the handle that its
    protocol steps do. */
module ManagerSteps {
  import opened Stores
  import opened Sessions
  import opened Manager
  import P = Protocol
  import R = ProtocolRuns

  /** Between two of its steps a request stays where it is. */
  predicate Waits(v: P.World, w: P.World, r: nat) { r in v.reqs && r in w.reqs && v.reqs[r] == w.reqs[r] }

  /** The steps `a` reads `w` and, if the request has decided, commits in `v`. */
  ghost predicate ReadThenCommit(a: Attempt, w: P.World, read: P.World, v: P.World, r: nat, fails: bool) {
    && read.store == w.store && r in read.reqs
    && (read.reqs[r].Ready? ==> read.reqs[r].h == a.handle && forall o <- a.steps :: o == Own(w.store, w.store))
    && (read.reqs[r].Deciding? && Waits(read, v, r) ==>
          var done := P.AfterCommit(v, r, v.reqs[r], fails);
          done.reqs[r] == P.Ready(a.handle) && a.steps == [Own(w.store, w.store), Own(v.store, done.store)])
  }

  /** The transition needs a new identifier. */
  predicate NeedsMint(cfg: Config, g: Handle, s: Store, ask: Ask, at: int) {
    g.sid in s.sessions && Decide(cfg, g, s.sessions[g.sid], at, ask, "").rotate
  }

  /** Only a rotation looks at the identifier. */
  lemma MintUnused(cfg: Config, g: Handle, x: Session, ask: Ask, at: int, mint: Id)
    ensures var c, d := Decide(cfg, g, x, at, ask, ""), Decide(cfg, g, x, at, ask, mint); c.rotate == d.rotate && (!c.rotate ==> c == d)
  {
  }

  lemma ControlsAreSteps(cfg: Config, w: P.World, v: P.World, r: nat, h: Handle, g: Handle, ask: Ask, at: int, mint: Option<Id>, id: Id, fails: bool)
    requires P.At(w, r) && g.sid == h.sid && (if mint.Some? then mint.value == id else !NeedsMint(cfg, g, w.store, ask, at))
    ensures var a := Tried(cfg, g, ask, at, mint, Turn(w.store, false), Turn(v.store, fails));
            ReadThenCommit(if a.result == Done then a else a.(handle := h), w, P.AfterControls(cfg, w, r, h, g, ask, at, id), v, r, fails)
  {
    if h.sid in w.store.sessions { MintUnused(cfg, g, w.store.sessions[h.sid], ask, at, id); }
  }

  /** The world after the read step, lost or not. */
  function AfterReading(cfg: Config, w: P.World, r: nat, h: Handle, g: Handle, ask: Ask, at: int, id: Id, lost: bool): P.World {
    if lost then P.With(w, r, P.Ready(h)) else P.AfterControls(cfg, w, r, h, g, ask, at, id)
  }

  predicate Lost(cfg: Config, w: P.World, g: Handle, ask: Ask, at: int, mint: Option<Id>, readFails: bool) {
    readFails || (mint.None? && NeedsMint(cfg, g, w.store, ask, at))
  }

  lemma ReadingIsStep(cfg: Config, w: P.World, v: P.World, r: nat, h: Handle, g: Handle, ask: Ask, at: int, mint: Option<Id>, id: Id, readFails: bool, fails: bool)
    requires P.At(w, r) && g.sid == h.sid && (mint.Some? ==> mint.value == id)
    ensures var a := Tried(cfg, g, ask, at, mint, Turn(w.store, readFails), Turn(v.store, fails));
            ReadThenCommit(if a.result == Done then a else a.(handle := h), w,
                           AfterReading(cfg, w, r, h, g, ask, at, id, Lost(cfg, w, g, ask, at, mint, readFails)), v, r, fails)
  {
    if !Lost(cfg, w, g, ask, at, mint, readFails) { ControlsAreSteps(cfg, w, v, r, h, g, ask, at, mint, id, fails); }
  }

  /** A response's transition, as one read and at most one commit of the protocol: `w` is
      the world it reads and `v` the one it commits in. The read step fails if the
      store's read does, or if a needed identifier cannot be minted. */
  lemma TriedIsSteps(cfg: Config, w: P.World, v: P.World, r: nat, ask: Ask, at: int, mint: Option<Id>, id: Id, readFails: bool, fails: bool)
    requires P.Enabled(cfg, w, P.ReadControls(r, ask, at, id, false)) && w.reqs[r].Ready? && (mint.Some? ==> mint.value == id)
    ensures var h := w.reqs[r].h;
            var lost := Lost(cfg, w, h, ask, at, mint, readFails);
            ReadThenCommit(Tried(cfg, h, ask, at, mint, Turn(w.store, readFails), Turn(v.store, fails)),
                           w, P.Next(cfg, w, P.ReadControls(r, ask, at, id, lost)), v, r, fails)
  {
    var h := w.reqs[r].h;
    FailureChangesNothing(cfg, h, ask, at, mint, Turn(w.store, readFails), Turn(v.store, fails));
    ReadingIsStep(cfg, w, v, r, h, h, ask, at, mint, id, readFails, fails);
  }

  /** A rotation, with the same failures. */
  lemma RotatedIsSteps(cfg: Config, w: P.World, v: P.World, r: nat, force: bool, at: int, mint: Option<Id>, id: Id, readFails: bool, fails: bool)
    requires P.Enabled(cfg, w, P.ReadRotate(r, force, at, id, false)) && (mint.Some? ==> mint.value == id)
    ensures ReadThenCommit(Rotated(cfg, w.reqs[r].h, force, at, mint, Turn(w.store, readFails), Turn(v.store, fails)),
                           w, P.Next(cfg, w, P.ReadRotate(r, force, at, id, readFails || mint.None?)), v, r, fails)
  {
  }

  /** Binding an owner: a first read in `u`, then the transition with the pending key set
      aside, which is put back unless the transition succeeds. */
  lemma BoundIsSteps(cfg: Config, u: P.World, w: P.World, v: P.World, r: nat, owner: int, at: int, mint: Option<Id>, id: Id,
                     firstFails: bool, readFails: bool, fails: bool)
    requires P.Enabled(cfg, u, P.StartBind(r, owner, firstFails)) && Waits(P.Next(cfg, u, P.StartBind(r, owner, firstFails)), w, r)
    requires id !in w.status && (mint.Some? ==> mint.value == id)
    ensures var h, ask := u.reqs[r].h, Ask(Some(owner), None, false, false, []);
            var a := Bound(cfg, h, owner, at, mint, Turn(u.store, firstFails), Turn(w.store, readFails), Turn(v.store, fails)).attempt;
            && |a.steps| > 0 && a.steps[0] == Own(u.store, u.store)
            && (w.reqs[r].Ready? ==> a.handle == w.reqs[r].h == h && |a.steps| == 1)
            && (w.reqs[r].Binding? ==>
                  var lost := Lost(cfg, w, P.Unpended(h, w.reqs[r].suppressed), ask, at, mint, readFails);
                  && P.Enabled(cfg, w, P.ReadControls(r, ask, at, id, lost))
                  && ReadThenCommit(a.(steps := a.steps[1..]), w, P.Next(cfg, w, P.ReadControls(r, ask, at, id, lost)), v, r, fails))
  {
    var q := w.reqs[r];
    if q.Binding? {
      var ask, g := Ask(Some(owner), None, false, false, []), P.Unpended(q.h, q.suppressed);
      var a := Tried(cfg, g, ask, at, mint, Turn(w.store, readFails), Turn(v.store, fails));
      assert ([Look(Turn(u.store, false))] + a.steps)[1..] == a.steps;
      ReadingIsStep(cfg, w, v, r, q.h, g, ask, at, mint, id, readFails, fails);
    }
  }

  /** Creating a session: nothing happens without both identifiers, and otherwise the
      protocol's two steps do. */
  lemma BeginningIsSteps(cfg: Config, u: P.World, w: P.World, v: P.World, sid: Id, key: Id, at: int, put: bool, bind: bool)
    requires P.Enabled(cfg, u, P.Begin(sid, key, at)) && Waits(P.Next(cfg, u, P.Begin(sid, key, at)), w, u.next)
    requires !put ==> Waits(P.Next(cfg, w, P.PutSession(u.next, false)), v, u.next)
    ensures forall s: Option<Id>, k: Option<Id> :: s.None? || k.None? ==> Beginning(cfg, at, s, k, Turn(w.store, put), Turn(v.store, bind)) == Found(None, true, [])
    ensures var r, stored := u.next, P.Next(cfg, w, P.PutSession(u.next, put));
            var f := Beginning(cfg, at, Some(sid), Some(key), Turn(w.store, put), Turn(v.store, bind));
            if put then f == Found(None, true, [Own(w.store, stored.store)]) && r !in stored.reqs
            else
              var done := P.Next(cfg, v, P.PutKey(r, bind));
              && f.steps == [Own(w.store, stored.store), Own(v.store, done.store)] && f.failed == f.live.None?
              && (if f.failed then r !in done.reqs else r in done.reqs && done.reqs[r] == P.Ready(f.live.value))
  {
  }

  /** Resolving a key: the reads fail or find what the protocol's reads do. */
  lemma ResolveReads(cfg: Config, u: P.World, v: P.World, r: nat, at: int, t: Turns, own: seq<Own>)
    requires P.At(u, r) && u.reqs[r].Presented? && t.key.seen == u.store && t.session.seen == v.store
    ensures var key, one := u.reqs[r].key, P.Next(cfg, u, P.GetKey(r, t.key.fails));
            var f := Resolving(cfg, own, key, at, t);
            && (r !in one.reqs ==> f == Found(None, t.key.fails, own + [Look(t.key)]))
            && (r in one.reqs && Waits(one, v, r) ==>
                  var two := P.Next(cfg, v, P.GetSession(r, t.session.fails, at));
                  && (r !in two.reqs ==> f == Found(None, t.session.fails, own + [Look(t.key)] + [Look(t.session)]))
                  && (r in two.reqs && two.reqs[r].Stale? ==>
                        f == Found(None, false, own + [Look(t.key)] + [Look(t.session)] + [Made(t.touch, Delete(t.touch.seen, two.reqs[r].sid))]))
                  && (r in two.reqs && two.reqs[r].Read? ==>
                        f == Loading(cfg, own + [Look(t.key)] + [Look(t.session)], key, two.reqs[r].sid, two.reqs[r].x, at, t)))
  {
  }

  /** The touch decides: only the request whose key still maps to its session goes on,
      with the handle it read. */
  lemma ResolveTouches(cfg: Config, w: P.World, r: nat, fails: bool, t: Turns, own: seq<Own>)
    requires P.At(w, r) && w.reqs[r].Read? && t.touch == Turn(w.store, fails)
    ensures var q, done := w.reqs[r], P.Next(cfg, w, P.Touch(r, fails));
            var f := Loading(cfg, own, q.key, q.sid, q.x, q.at, t);
            && |f.steps| > |own| && f.steps[|own|] == Own(w.store, done.store)
            && (r !in done.reqs ==> f == Found(None, true, own + [Own(w.store, done.store)]))
            && (r in done.reqs && f.live.Some? ==>
                  done.reqs[r] == P.Resolved(f.live.value.(cookies := map[], shas := map[])))
            && (f.live.Some? <==> r in done.reqs && !t.cookies.fails && !t.shas.fails)
  {
  }

  /** A resolve that returns a handle, step by step in a run: its key maps to its session
      at the touch, and the labels and the owner it shows are those stored at that step,
      although they were read before it. */
  lemma ResolveIsCurrent(cfg: Config, u: P.World, v: P.World, w: P.World, r: nat, at: int, t: Turns, own: seq<Own>)
    requires P.At(u, r) && u.reqs[r].Presented? && t.key.seen == u.store && t.session.seen == v.store && t.touch.seen == w.store
    requires r in P.Next(cfg, u, P.GetKey(r, t.key.fails)).reqs ==> Waits(P.Next(cfg, u, P.GetKey(r, t.key.fails)), v, r)
    requires r in v.reqs && v.reqs[r].Keyed? && r in P.Next(cfg, v, P.GetSession(r, t.session.fails, at)).reqs ==>
               Waits(P.Next(cfg, v, P.GetSession(r, t.session.fails, at)), w, r)
    requires P.Inv(cfg, w)
    ensures var f := Resolving(cfg, own, u.reqs[r].key, at, t);
            f.live.Some? ==>
              && r in w.reqs && w.reqs[r].Read?
              && var s, h := P.Next(cfg, w, P.Touch(r, t.touch.fails)).store, f.live.value;
                 && h.key == u.reqs[r].key && Maps(s, h.key, h.sid) && h.sid in s.sessions
                 && h.labels == Labels.Fields(s.sessions[h.sid].labels) && (cfg.rotateOnLogin ==> h.owner == s.sessions[h.sid].owner)
  {
    var f := Resolving(cfg, own, u.reqs[r].key, at, t);
    ResolveReads(cfg, u, v, r, at, t, own);
    if f.live.Some? {
      ResolveTouches(cfg, w, r, t.touch.fails, t, own + [Look(t.key)] + [Look(t.session)]);
      R.ResolveLinearizes(cfg, w, P.Touch(r, t.touch.fails));
    }
  }

  /** The reads after the touch: the handle returned is the one the protocol's request ends
      up with, with the cookie row of the world `x` it reads the cookies in and the digest
      row of the world `y` it reads the digests in. */
  lemma ResolveFetches(cfg: Config, w: P.World, x: P.World, y: P.World, r: nat, t: Turns, own: seq<Own>)
    requires P.At(w, r) && w.reqs[r].Read? && t.touch.seen == w.store && t.cookies.seen == x.store && t.shas.seen == y.store
    requires var done := P.Next(cfg, w, P.Touch(r, t.touch.fails)); r in done.reqs ==> Waits(done, x, r)
    requires r in x.reqs && x.reqs[r].Resolved? ==>
               var fetched := P.Next(cfg, x, P.GetCookies(r, t.cookies.fails)); r in fetched.reqs ==> Waits(fetched, y, r)
    ensures var q := w.reqs[r];
            var f := Loading(cfg, own, q.key, q.sid, q.x, q.at, t);
            f.live.Some? ==>
              && r in x.reqs && x.reqs[r].Resolved? && r in y.reqs && y.reqs[r].Cached?
              && var ready := P.Next(cfg, y, P.GetShas(r, t.shas.fails));
                 r in ready.reqs && ready.reqs[r] == P.Ready(f.live.value)
    ensures var q := w.reqs[r];
            var f := Loading(cfg, own, q.key, q.sid, q.x, q.at, t);
            f.live.Some? ==> f.live.value.cookies == RowOf(x.store.cookies, q.sid) && f.live.value.shas == RowOf(y.store.shas, q.sid)
  {
    ResolveTouches(cfg, w, r, t.touch.fails, t, own);
  }
}
