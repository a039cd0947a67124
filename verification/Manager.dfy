/** The session manager's operations, store step by store step.

    Other requests may change the store before any step, and any step may fail
    without effect: each step gets its `Turn`. `Shared` stands for the
    store and keeps the request's own steps on it. */
module Manager {
  import opened Stores
  import opened Sessions
  import Labels

  datatype Turn = Turn(seen: Store, fails: bool)

  datatype Outcome = Done | Missing | Lost | Broken

  function Result(t: Turn, code: Code): Outcome {
    if t.fails then Broken else match code case Ok => Done case NotFound => Missing case Conflict => Lost
  }

  /** One step of this request: the store before and after it. */
  datatype Own = Own(before: Store, after: Store)

  class Shared {
    var steps: seq<Own>

    constructor ()
      ensures steps == []
    {
      steps := [];
    }

    /** One store step, which leaves `after` unless it fails. */
    method Take(t: Turn, after: Store)
      modifies this
      ensures steps == old(steps) + [Made(t, after)]
    {
      steps := steps + [Own(t.seen, if t.fails then t.seen else after)];
    }
  }

  /** The step changed nothing. */
  predicate Idle(o: Own) { o.before == o.after }

  /** What came of an operation: its result, the handle it leaves and its own steps. */
  datatype Attempt = Attempt(result: Outcome, handle: Handle, steps: seq<Own>)

  function MintedOr(mint: Option<Id>): Id { if mint.Some? then mint.value else "" }

  function Look(t: Turn): Own { Own(t.seen, t.seen) }

  function Made(t: Turn, after: Store): Own { Own(t.seen, if t.fails then t.seen else after) }

  /** Read the session, decide, commit in one conditional step. */
  function Tried(cfg: Config, h: Handle, ask: Ask, now: int, mint: Option<Id>, read: Turn, commit: Turn): Attempt {
    if read.fails then Attempt(Broken, h, [Look(read)])
    else if h.sid !in read.seen.sessions then Attempt(Missing, h, [Look(read)])
    else
      var c := Decide(cfg, h, read.seen.sessions[h.sid], now, ask, MintedOr(mint));
      if NothingToDo(c) then Attempt(Done, Granted(h, ask), [Look(read)])
      else if c.rotate && mint.None? then Attempt(Broken, h, [Look(read)])
      else
        var a := Apply(commit.seen, h.sid, c);
        var r := Result(commit, a.1);
        Attempt(r, if r == Done then Committed(h, ask, c) else h, [Look(read), Made(commit, a.0)])
  }

  // ---- the handle ----------------------------------------------------------------------

  class Live {
    var keyId: Id
    var sessionId: Id
    var ownerId: int
    var labels: seq<string>
    var cookies: map<string, string>
    var shas: map<string, string>
    var newKey: Id
    var rewrite: bool
    var rotateDue: bool

    function Value(): Handle
      reads this
    {
      Handle(keyId, sessionId, ownerId, labels, cookies, shas, newKey, rewrite, rotateDue)
    }

    constructor (h: Handle)
      ensures Value() == h
    {
      keyId, sessionId, ownerId, labels := h.key, h.sid, h.owner, h.labels;
      cookies, shas, newKey, rewrite, rotateDue := h.cookies, h.shas, h.newKey, h.rewrite, h.rotateDue;
    }

    /** The loop that turns response cookies into store mutations. */
    static method HashCookies(cfg: Config, cs: seq<CookieWrite>) returns (muts: seq<CookieMutation>)
      ensures muts == Mutations(cfg, cs)
    {
      muts := [];
      for i := 0 to |cs|
        invariant muts == Mutations(cfg, cs[..i])
      {
        var m := CookieMutation(cs[i].name, cs[i].value, "", cs[i].delete);
        if !cs[i].delete { m := m.(sha := cfg.hash(cs[i].value)); }
        muts := muts + [m];
      }
      assert cs[..|cs|] == cs;
    }

    /** The loop that carries committed cookies over to the handle. */
    method KeepCookies(muts: seq<CookieMutation>)
      modifies this`cookies, this`shas
      ensures cookies == Batch(old(cookies), muts, false) && shas == Batch(old(shas), muts, true)
    {
      for i := 0 to |muts|
        invariant cookies == Batch(old(cookies), muts[..i], false) && shas == Batch(old(shas), muts[..i], true)
      {
        assert muts[..i + 1][..i] == muts[..i] && muts[..i + 1][i] == muts[i];
        if muts[i].delete {
          cookies, shas := cookies - {muts[i].name}, shas - {muts[i].name};
        } else {
          cookies, shas := cookies[muts[i].name := muts[i].value], shas[muts[i].name := muts[i].sha];
        }
      }
      assert muts[..|muts|] == muts;
    }

    method MakeControls(cfg: Config, sess: Session, ask: Ask, now: int, mint: Id) returns (c: Controls)
      ensures c == Decide(cfg, Value(), sess, now, ask, mint)
    {
      var ownerChanged := ask.owner.Some? && ask.owner.value != sess.owner;
      var normalized := "";
      var labelsChanged := false;
      if ask.labels.Some? {
        normalized := Labels.NormalizeLabels(ask.labels.value);
        labelsChanged := normalized != sess.labels;
      }
      var muts := HashCookies(cfg, ask.cookies);
      var due := ask.periodic && cfg.rotateInterval > 0 && now - sess.lastRotation >= Seconds(cfg.rotateInterval);
      var rotate := !rewrite && (ask.force || due || labelsChanged || (ownerChanged && cfg.rotateOnLogin));
      var access := 0;
      if ownerChanged || labelsChanged || |muts| > 0 { access := now; }
      c := Controls(ownerChanged, if ask.owner.Some? then ask.owner.value else 0, labelsChanged, normalized,
                    access, if rotate then now else 0, keyId, if rotate then mint else keyId, rotate, muts);
    }

    method ApplyControls(cfg: Config, shared: Shared, ask: Ask, now: int, mint: Option<Id>, read: Turn, commit: Turn)
      returns (r: Outcome)
      modifies this, shared
      ensures Attempt(r, Value(), shared.steps) ==
              var a := Tried(cfg, old(Value()), ask, now, mint, read, commit); a.(steps := old(shared.steps) + a.steps)
    {
      shared.Take(read, read.seen);
      if read.fails { return Broken; }
      if sessionId !in read.seen.sessions { return Missing; }
      var c := MakeControls(cfg, read.seen.sessions[sessionId], ask, now, if mint.Some? then mint.value else "");
      if !c.setOwner && !c.setLabels && !c.rotate && |c.cookies| == 0 {
        SetGrants(ask, c.labels);
        return Done;
      }
      if c.rotate && mint.None? { return Broken; }
      var applied := Apply(commit.seen, sessionId, c);
      shared.Take(commit, applied.0);
      assert shared.steps == old(shared.steps) + [Look(read), Made(commit, applied.0)];
      r := Result(commit, applied.1);
      if r != Done { return; }
      Keep(ask, c);
    }

    /** The handle follows the store once the commit succeeded. */
    method Keep(ask: Ask, c: Controls)
      requires ask.labels.Some? ==> c.labels == Labels.Normalize(ask.labels.value)
      modifies this
      ensures Value() == Committed(old(Value()), ask, c)
    {
      SetGrants(ask, c.labels);
      KeepCookies(c.cookies);
      if c.rotate {
        keyId, newKey, rewrite := c.newKey, c.newKey, true;
      }
    }

    method SetGrants(ask: Ask, normalized: string)
      requires ask.labels.Some? ==> normalized == Labels.Normalize(ask.labels.value)
      modifies this`ownerId, this`labels
      ensures Value() == Granted(old(Value()), ask)
    {
      if ask.owner.Some? { ownerId := ask.owner.value; }
      if ask.labels.Some? { labels := Labels.Fields(normalized); }
    }

    /** An owner change rotates even a key that is not delivered yet; on failure the
        pending key is put back. */
    method BindOwner(cfg: Config, shared: Shared, owner: int, now: int, mint: Option<Id>, first: Turn, read: Turn, commit: Turn)
      returns (rotated: bool, r: Outcome)
      modifies this, shared
      ensures BindAttempt(rotated, Attempt(r, Value(), shared.steps)) ==
              var b := Bound(cfg, old(Value()), owner, now, mint, first, read, commit);
              b.(attempt := b.attempt.(steps := old(shared.steps) + b.attempt.steps))
    {
      if owner <= 0 { return false, Done; }
      shared.Take(first, first.seen);
      if first.fails { return false, Broken; }
      if sessionId !in first.seen.sessions { return false, Missing; }
      var changed := owner != first.seen.sessions[sessionId].owner && cfg.rotateOnLogin;
      ghost var a := Rebound(cfg, Value(), owner, changed && rewrite, now, mint, read, commit);
      r := Rebind(cfg, shared, owner, changed && rewrite, now, mint, read, commit);
      rotated := changed && r == Done;
      assert old(shared.steps) + ([Look(first)] + a.steps) == old(shared.steps) + [Look(first)] + a.steps;
    }

    /** The transition of a bind, with the pending key set aside if it is to be replaced. */
    method Rebind(cfg: Config, shared: Shared, owner: int, suppress: bool, now: int, mint: Option<Id>, read: Turn, commit: Turn) returns (r: Outcome)
      modifies this, shared
      ensures Attempt(r, Value(), shared.steps) ==
              var a := Rebound(cfg, old(Value()), owner, suppress, now, mint, read, commit); a.(steps := old(shared.steps) + a.steps)
    {
      var wasRewrite, pending := rewrite, newKey;
      if suppress { rewrite, newKey := false, ""; }
      ghost var g := Value();
      r := ApplyControls(cfg, shared, Ask(Some(owner), None, false, false, []), now, mint, read, commit);
      if r != Done {
        FailureChangesNothing(cfg, g, Ask(Some(owner), None, false, false, []), now, mint, read, commit);
        rewrite, newKey := wasRewrite, pending;
      }
    }

    /** The shared rotation: one conditional swap. */
    method RotateKey(shared: Shared, now: int, mint: Option<Id>, commit: Turn) returns (r: Outcome)
      modifies this, shared
      ensures Attempt(r, Value(), shared.steps) ==
              var a := Swapped(old(Value()), now, mint, commit); a.(steps := old(shared.steps) + a.steps)
    {
      if mint.None? { return Broken; }
      var applied := Apply(commit.seen, sessionId, Controls(false, 0, false, "", 0, now, keyId, mint.value, true, []));
      shared.Take(commit, applied.0);
      r := Result(commit, applied.1);
      if r != Done { return; }
      keyId, newKey, rewrite := mint.value, mint.value, true;
    }

    /** Rotation on request (`force`) or when the interval decided in Resolve is still due. */
    method Rotate(cfg: Config, shared: Shared, force: bool, now: int, mint: Option<Id>, read: Turn, commit: Turn) returns (r: Outcome)
      modifies this, shared
      ensures Attempt(r, Value(), shared.steps) ==
              var a := Rotated(cfg, old(Value()), force, now, mint, read, commit); a.(steps := old(shared.steps) + a.steps)
    {
      if rewrite || (!force && !rotateDue) { return Done; }
      shared.Take(read, read.seen);
      if read.fails { return Broken; }
      if sessionId !in read.seen.sessions { return Missing; }
      if !force && now - read.seen.sessions[sessionId].lastRotation < Seconds(cfg.rotateInterval) { return Done; }
      r := RotateKey(shared, now, mint, commit);
    }

    method Revoke(shared: Shared, t: Turn) returns (r: Outcome)
      modifies this, shared
      ensures r == if t.fails then Broken else Done
      ensures shared.steps == old(shared.steps) + [Made(t, Delete(t.seen, old(sessionId)))]
      ensures r == Broken ==> Value() == old(Value())
      ensures r == Done ==> keyId == "" && newKey == "" && !rewrite && cookies == map[] && shas == map[]
    {
      shared.Take(t, Delete(t.seen, sessionId));
      if t.fails { return Broken; }
      keyId, newKey, rewrite, cookies, shas := "", "", false, map[], map[];
      return Done;
    }
  }

  datatype BindAttempt = BindAttempt(rotated: bool, attempt: Attempt)

  function Prepended(o: Own, a: Attempt): Attempt { a.(steps := [o] + a.steps) }

  function Bound(cfg: Config, h: Handle, owner: int, now: int, mint: Option<Id>, first: Turn, read: Turn, commit: Turn): BindAttempt {
    if owner <= 0 then BindAttempt(false, Attempt(Done, h, []))
    else if first.fails then BindAttempt(false, Attempt(Broken, h, [Look(first)]))
    else if h.sid !in first.seen.sessions then BindAttempt(false, Attempt(Missing, h, [Look(first)]))
    else
      var changed := owner != first.seen.sessions[h.sid].owner && cfg.rotateOnLogin;
      var a := Rebound(cfg, h, owner, changed && h.rewrite, now, mint, read, commit);
      BindAttempt(changed && a.result == Done, Prepended(Look(first), a))
  }

  /** The transition of a bind; unless it succeeds the handle is as before. */
  function Rebound(cfg: Config, h: Handle, owner: int, suppress: bool, now: int, mint: Option<Id>, read: Turn, commit: Turn): Attempt {
    var g := if suppress then h.(rewrite := false, newKey := "") else h;
    var a := Tried(cfg, g, Ask(Some(owner), None, false, false, []), now, mint, read, commit);
    if a.result == Done then a else a.(handle := h)
  }

  function Swapped(h: Handle, now: int, mint: Option<Id>, commit: Turn): Attempt {
    if mint.None? then Attempt(Broken, h, [])
    else
      var c := RotateOnly(h, mint.value, now);
      var a := Apply(commit.seen, h.sid, c);
      var r := Result(commit, a.1);
      Attempt(r, if r == Done then Rekeyed(h, c) else h, [Made(commit, a.0)])
  }

  function Rotated(cfg: Config, h: Handle, force: bool, now: int, mint: Option<Id>, read: Turn, commit: Turn): Attempt {
    if h.rewrite || (!force && !h.rotateDue) then Attempt(Done, h, [])
    else if read.fails then Attempt(Broken, h, [Look(read)])
    else if h.sid !in read.seen.sessions then Attempt(Missing, h, [Look(read)])
    else if !force && now - read.seen.sessions[h.sid].lastRotation < Seconds(cfg.rotateInterval) then Attempt(Done, h, [Look(read)])
    else Prepended(Look(read), Swapped(h, now, mint, commit))
  }

  // ---- creating and resolving ------------------------------------------------------------

  /** What came of Begin or Resolve: a handle, or none; `failed` reports an error. */
  datatype Found = Found(live: Option<Handle>, failed: bool, steps: seq<Own>)

  function Beginning(cfg: Config, now: int, sid: Option<Id>, key: Option<Id>, put: Turn, bind: Turn): Found {
    if sid.None? || key.None? then Found(None, true, [])
    else
      var first := Made(put, PutSession(put.seen, sid.value, NewSession(cfg, now)));
      if put.fails then Found(None, true, [first])
      else
        var b := PutKey(bind.seen, key.value, sid.value);
        Found(if Result(bind, b.1) == Done then Some(BeginHandle(sid.value, key.value)) else None,
              Result(bind, b.1) != Done, [first, Made(bind, b.0)])
  }

  method Begin(cfg: Config, shared: Shared, now: int, sid: Option<Id>, key: Option<Id>, put: Turn, bind: Turn)
    returns (live: Live?, failed: bool)
    modifies shared
    ensures live != null ==> fresh(live)
    ensures Found(if live == null then None else Some(live.Value()), failed, shared.steps) ==
            var f := Beginning(cfg, now, sid, key, put, bind); f.(steps := old(shared.steps) + f.steps)
  {
    if sid.None? || key.None? { return null, true; }
    var x := Session(now, now, Seconds(cfg.inactive), Seconds(cfg.final), 0, now, "");
    shared.Take(put, PutSession(put.seen, sid.value, x));
    if put.fails { return null, true; }
    var b := PutKey(bind.seen, key.value, sid.value);
    shared.Take(bind, b.0);
    if Result(bind, b.1) != Done { return null, true; }
    live := new Live(Handle(key.value, sid.value, 0, [], map[], map[], key.value, true, false));
    failed := false;
  }

  /** The turns of a resolve, in order: key, session, touch or delete, cookies, hashes. */
  datatype Turns = Turns(key: Turn, session: Turn, touch: Turn, cookies: Turn, shas: Turn)

  function Resolving(cfg: Config, own: seq<Own>, key: Id, now: int, t: Turns): Found {
    var one := own + [Look(t.key)];
    if t.key.fails || key !in t.key.seen.keys then Found(None, t.key.fails, one)
    else
      var sid := t.key.seen.keys[key];
      var two := one + [Look(t.session)];
      if t.session.fails || sid !in t.session.seen.sessions then Found(None, t.session.fails, two)
      else
        var x := t.session.seen.sessions[sid];
        if Expired(x, now) then Found(None, false, two + [Made(t.touch, Delete(t.touch.seen, sid))])
        else Loading(cfg, two, key, sid, x, now, t)
  }

  /** The end of a resolve, once an unexpired session is read. */
  function Loading(cfg: Config, own: seq<Own>, key: Id, sid: Id, x: Session, now: int, t: Turns): Found {
    var a := Touch(t.touch.seen, sid, key, now, LegacyRotation(cfg, x, now));
    var three := own + [Made(t.touch, a.0)];
    var four := three + [Look(t.cookies)];
    var five := four + [Look(t.shas)];
    if Result(t.touch, a.1) != Done then Found(None, true, three)
    else if t.cookies.fails then Found(None, true, four)
    else if t.shas.fails then Found(None, true, five)
    else Found(Some(ResolvedHandle(cfg, key, sid, x, now).(cookies := RowOf(t.cookies.seen.cookies, sid), shas := RowOf(t.shas.seen.shas, sid))),
               false, five)
  }

  method Resolve(cfg: Config, shared: Shared, key: Id, now: int, t: Turns) returns (live: Live?, failed: bool)
    modifies shared
    ensures live != null ==> fresh(live)
    ensures Found(if live == null then None else Some(live.Value()), failed, shared.steps) == Resolving(cfg, old(shared.steps), key, now, t)
  {
    shared.Take(t.key, t.key.seen);
    if t.key.fails { return null, true; }
    if key !in t.key.seen.keys { return null, false; }
    var sid := t.key.seen.keys[key];
    shared.Take(t.session, t.session.seen);
    if t.session.fails { return null, true; }
    if sid !in t.session.seen.sessions { return null, false; }
    var sess := t.session.seen.sessions[sid];
    if now - sess.lastAccess >= sess.inactive || now >= sess.creation + sess.final {
      shared.Take(t.touch, Delete(t.touch.seen, sid));
      return null, false;
    }
    live, failed := Load(cfg, shared, key, sid, sess, now, t);
  }

  method Load(cfg: Config, shared: Shared, key: Id, sid: Id, sess: Session, now: int, t: Turns) returns (live: Live?, failed: bool)
    modifies shared
    ensures live != null ==> fresh(live)
    ensures Found(if live == null then None else Some(live.Value()), failed, shared.steps) == Loading(cfg, old(shared.steps), key, sid, sess, now, t)
  {
    var rotateDue, rotation := false, sess.lastRotation;
    if cfg.rotateInterval > 0 {
      if sess.lastRotation == 0 { rotation := now; }
      else { rotateDue := now - sess.lastRotation >= Seconds(cfg.rotateInterval); }
    }
    var touched := Touch(t.touch.seen, sid, key, now, rotation);
    shared.Take(t.touch, touched.0);
    if Result(t.touch, touched.1) != Done { return null, true; }
    shared.Take(t.cookies, t.cookies.seen);
    if t.cookies.fails { return null, true; }
    shared.Take(t.shas, t.shas.seen);
    if t.shas.fails { return null, true; }
    live := new Live(Handle(key, sid, sess.owner, Labels.Fields(sess.labels),
                            RowOf(t.cookies.seen.cookies, sid), RowOf(t.shas.seen.shas, sid), "", false, rotateDue));
    failed := false;
  }

  // ---- logout everywhere --------------------------------------------------------------------

  /** Every listed session gets its delete step, whatever happened to the others and
      whether or not the list is up to date. */
  method RevokeOwner(shared: Shared, owner: int, list: Turn, ids: seq<Id>, turns: seq<Turn>) returns (failed: bool)
    requires |turns| == |ids|
    modifies shared
    ensures failed <==> list.fails || exists t <- turns :: t.fails
    ensures list.fails ==> shared.steps == old(shared.steps) + [Look(list)]
    ensures !list.fails ==>
              shared.steps == old(shared.steps) + [Look(list)] +
              seq(|ids|, i requires 0 <= i < |ids| => Made(turns[i], DeleteByOwner(turns[i].seen, owner, ids[i]).0))
  {
    shared.Take(list, list.seen);
    if list.fails { return true; }
    failed := false;
    for k := 0 to |ids|
      invariant failed <==> exists t <- turns[..k] :: t.fails
      invariant shared.steps == old(shared.steps) + [Look(list)] +
                seq(k, i requires 0 <= i < k => Made(turns[i], DeleteByOwner(turns[i].seen, owner, ids[i]).0))
    {
      assert turns[..k + 1] == turns[..k] + [turns[k]];
      shared.Take(turns[k], DeleteByOwner(turns[k].seen, owner, ids[k]).0);
      if turns[k].fails && !failed { failed := true; }
    }
    assert turns[..|ids|] == turns;
  }

  // ---- stale handles ----------------------------------------------------------------------------

  /** A handle whose key no longer maps to its session changes nothing: every own step
      leaves the store alone, and the handle keeps its key and its pending cookie. */
  lemma StaleIsAllOrNothing(cfg: Config, h: Handle, ask: Ask, force: bool, now: int, mint: Option<Id>, read: Turn, commit: Turn)
    requires !Maps(commit.seen, h.key, h.sid)
    ensures var a := Tried(cfg, h, ask, now, mint, read, commit);
            (forall o <- a.steps :: Idle(o)) && a.handle.key == h.key && a.handle.newKey == h.newKey && a.handle.rewrite == h.rewrite
    ensures var a := Rotated(cfg, h, force, now, mint, read, commit); (forall o <- a.steps :: Idle(o)) && a.handle == h
  {
  }

  /** An operation that reports anything but success changed nothing. */
  lemma FailureChangesNothing(cfg: Config, h: Handle, ask: Ask, now: int, mint: Option<Id>, read: Turn, commit: Turn)
    ensures var a := Tried(cfg, h, ask, now, mint, read, commit);
            a.result != Done ==> a.handle == h && forall o <- a.steps :: Idle(o)
  {
  }
}
