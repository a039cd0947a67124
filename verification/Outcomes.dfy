/** What the manager's operations come to: when one succeeds, and what is then in the
    store and in the handle. */
module Outcomes {
  import opened Stores
  import opened Sessions
  import opened Manager
  import Labels

  /** The row the operation read, and the store its last step left. */
  function RowRead(h: Handle, read: Turn): Session
    requires h.sid in read.seen.sessions
  {
    read.seen.sessions[h.sid]
  }

  function Last(a: Attempt): Store
    requires a.steps != []
  {
    a.steps[|a.steps| - 1].after
  }

  predicate Binds(ask: Ask, x: Session) { ask.owner.Some? && ask.owner.value != x.owner }

  predicate Relabels(ask: Ask, x: Session) { ask.labels.Some? && Labels.Normalize(ask.labels.value) != x.labels }

  /** The interval is over: so many whole seconds have gone by since the last rotation. */
  predicate Overdue(cfg: Config, x: Session, now: int) {
    cfg.rotateInterval != 0 && now >= x.lastRotation + cfg.rotateInterval / SECOND
  }

  /** The response calls for a new key. */
  predicate Rekeys(cfg: Config, h: Handle, ask: Ask, x: Session, now: int) {
    && !h.rewrite
    && (ask.force || (ask.periodic && Overdue(cfg, x, now)) || Relabels(ask, x) || (cfg.rotateOnLogin && Binds(ask, x)))
  }

  /** The response leaves everything as it is. */
  predicate Quiet(cfg: Config, h: Handle, ask: Ask, x: Session, now: int) {
    ask.cookies == [] && !Binds(ask, x) && !Relabels(ask, x) && !Rekeys(cfg, h, ask, x, now)
  }

  /** The commit finds the key it was asked under, and a free one to swap it for. */
  predicate Commits(h: Handle, mint: Option<Id>, commit: Turn, rekeys: bool) {
    && !commit.fails && h.sid in commit.seen.sessions && Maps(commit.seen, h.key, h.sid)
    && (rekeys ==> mint.Some? && mint.value !in commit.seen.keys)
  }

  /** An operation succeeds exactly when its session is read and there is nothing to do or
      its key still leads to the session at the commit. */
  lemma SucceedsIff(cfg: Config, h: Handle, ask: Ask, now: int, mint: Option<Id>, read: Turn, commit: Turn)
    ensures Tried(cfg, h, ask, now, mint, read, commit).result == Done <==>
            && !read.fails && h.sid in read.seen.sessions
            && (Quiet(cfg, h, ask, RowRead(h, read), now) || Commits(h, mint, commit, Rekeys(cfg, h, ask, RowRead(h, read), now)))
  {
  }

  /** How it ends otherwise: the session is gone, the key was lost, or the store or the
      minting of an identifier failed. */
  lemma FailsAs(cfg: Config, h: Handle, ask: Ask, now: int, mint: Option<Id>, read: Turn, commit: Turn)
    requires Tried(cfg, h, ask, now, mint, read, commit).result != Done
    ensures var r := Tried(cfg, h, ask, now, mint, read, commit).result;
            && (r == Missing <==>
                  && !read.fails
                  && (h.sid in read.seen.sessions ==>
                        && (Rekeys(cfg, h, ask, RowRead(h, read), now) ==> mint.Some?) && !commit.fails && h.sid !in commit.seen.sessions))
            && (r == Lost ==> !commit.fails && h.sid in commit.seen.sessions && (!Maps(commit.seen, h.key, h.sid) || (mint.Some? && mint.value in commit.seen.keys)))
            && (r == Broken ==> read.fails || commit.fails || mint.None?)
  {
  }

  /** The swap of a key: the old one is retired, the new one leads to the session and is
      the one the client will be told. */
  predicate KeySwapped(o: Own, h: Handle, after: Handle, mint: Option<Id>) {
    && mint.Some? && h.key in o.before.keys && mint.value !in o.before.keys
    && o.after.keys == (o.before.keys - {h.key})[mint.value := h.sid]
    && after.key == mint.value && after.newKey == mint.value && after.rewrite
  }

  /** No key changes hands. */
  predicate SameKeys(o: Own, h: Handle, after: Handle) {
    o.after.keys == o.before.keys && after.key == h.key && after.newKey == h.newKey && after.rewrite == h.rewrite
  }

  /** Forced, periodic, label and login rotation: a response that succeeds swaps the key
      exactly when one of them is called for and no fresh key is pending. */
  lemma RotatesIff(cfg: Config, h: Handle, ask: Ask, now: int, mint: Option<Id>, read: Turn, commit: Turn)
    requires Tried(cfg, h, ask, now, mint, read, commit).result == Done
    ensures var a := Tried(cfg, h, ask, now, mint, read, commit);
            && h.sid in read.seen.sessions && |a.steps| > 0 && a.steps[0] == Own(read.seen, read.seen)
            && (if Rekeys(cfg, h, ask, RowRead(h, read), now)
                then |a.steps| == 2 && a.steps[1].before == commit.seen && KeySwapped(a.steps[1], h, a.handle, mint)
                else forall o <- a.steps :: SameKeys(o, h, a.handle))
  {
    var c := Decide(cfg, h, RowRead(h, read), now, ask, MintedOr(mint));
    if !NothingToDo(c) { SwapsAsDecided(commit.seen, h, ask, c); }
  }

  lemma SwapsAsDecided(s: Store, h: Handle, ask: Ask, c: Controls)
    requires Apply(s, h.sid, c).1 == Ok && c.oldKey == h.key
    ensures var o, after := Own(s, Apply(s, h.sid, c).0), Committed(h, ask, c);
            if c.rotate then KeySwapped(o, h, after, Some(c.newKey)) else SameKeys(o, h, after)
  {
  }

  /** The row a commit leaves: owner and labels as asked for where they differ from the row
      read, the last access moved up by any change, the last rotation by a swap. */
  function RowAfter(cfg: Config, h: Handle, ask: Ask, now: int, x: Session, y: Session): Session {
    Session(y.creation,
            if Binds(ask, x) || Relabels(ask, x) || ask.cookies != [] then Max(y.lastAccess, now) else Max(y.lastAccess, 0),
            y.inactive, y.final, if Binds(ask, x) then ask.owner.value else y.owner,
            if Rekeys(cfg, h, ask, x, now) then Max(y.lastRotation, now) else Max(y.lastRotation, 0),
            if Relabels(ask, x) then Labels.Normalize(ask.labels.value) else y.labels)
  }

  /** The one row a response changes. */
  lemma RowIsExact(cfg: Config, h: Handle, ask: Ask, now: int, mint: Option<Id>, read: Turn, commit: Turn)
    requires Tried(cfg, h, ask, now, mint, read, commit).result == Done
    ensures var a := Tried(cfg, h, ask, now, mint, read, commit);
            && h.sid in read.seen.sessions
            && var x := RowRead(h, read);
               if Quiet(cfg, h, ask, x, now) then a.steps == [Own(read.seen, read.seen)]
               else
                 && |a.steps| == 2 && a.steps[1].before == commit.seen && h.sid in commit.seen.sessions
                 && a.steps[1].after.sessions == commit.seen.sessions[h.sid := RowAfter(cfg, h, ask, now, x, commit.seen.sessions[h.sid])]
  {
    var c := Decide(cfg, h, RowRead(h, read), now, ask, MintedOr(mint));
    if !NothingToDo(c) { assert ControlledSession(commit.seen.sessions[h.sid], c) == RowAfter(cfg, h, ask, now, RowRead(h, read), commit.seen.sessions[h.sid]); }
  }

  /** The store the response left holds what it asked for, provided nobody changed the
      session's owner or labels between its read and its commit; so does the handle. */
  lemma StoredAsAsked(cfg: Config, h: Handle, ask: Ask, now: int, mint: Option<Id>, read: Turn, commit: Turn)
    requires Tried(cfg, h, ask, now, mint, read, commit).result == Done
    requires h.sid in read.seen.sessions && h.sid in commit.seen.sessions ==>
               var x, y := read.seen.sessions[h.sid], commit.seen.sessions[h.sid]; x.owner == y.owner && x.labels == y.labels
    ensures var a := Tried(cfg, h, ask, now, mint, read, commit);
            && h.sid in read.seen.sessions && |a.steps| > 0 && h.sid in Last(a).sessions
            && var x, y := RowRead(h, read), Last(a).sessions[h.sid];
               && y.owner == (if ask.owner.Some? then ask.owner.value else x.owner)
               && y.labels == (if ask.labels.Some? then Labels.Normalize(ask.labels.value) else x.labels)
               && a.handle.owner == (if ask.owner.Some? then y.owner else h.owner)
               && a.handle.labels == (if ask.labels.Some? then Labels.Fields(y.labels) else h.labels)
  {
    RowIsExact(cfg, h, ask, now, mint, read, commit);
  }

  /** After a swap rotation is not due again until the interval is over once more. */
  lemma NotDueAgain(cfg: Config, h: Handle, ask: Ask, now: int, x: Session, y: Session, at: int)
    requires Rekeys(cfg, h, ask, x, now) && at < now + cfg.rotateInterval / SECOND
    ensures !Overdue(cfg, RowAfter(cfg, h, ask, now, x, y), at)
  {
  }

  // ---- cookies ------------------------------------------------------------------------------------

  /** The last write of its name. */
  predicate IsLastWrite(cs: seq<CookieWrite>, i: nat) {
    i < |cs| && forall j :: i < j < |cs| ==> cs[j].name != cs[i].name
  }

  predicate WritesName(cs: seq<CookieWrite>, n: string) { exists c <- cs :: c.name == n }

  /** A response that writes cookies leaves, of the last write of each name, the value and
      its digest in the store and in the handle, or neither if it deletes. */
  lemma CookiesWritten(cfg: Config, h: Handle, ask: Ask, now: int, mint: Option<Id>, read: Turn, commit: Turn, i: nat)
    requires Tried(cfg, h, ask, now, mint, read, commit).result == Done && IsLastWrite(ask.cookies, i)
    ensures var a, w := Tried(cfg, h, ask, now, mint, read, commit), ask.cookies[i];
            && |a.steps| == 2
            && CookieIn(Last(a), h.sid, w.name) == Lookup(a.handle.cookies, w.name) == (if w.delete then None else Some(w.value))
            && DigestIn(Last(a), h.sid, w.name) == Lookup(a.handle.shas, w.name) == (if w.delete then None else Some(cfg.hash(w.value)))
  {
    var c := Decide(cfg, h, RowRead(h, read), now, ask, MintedOr(mint));
    assert IsLast(c.cookies, i);
    CommitWrites(commit.seen, h.sid, c, i);
    BatchLastWins(h.cookies, c.cookies, false, i);
    BatchLastWins(h.shas, c.cookies, true, i);
  }

  /** The step leaves the cookie and its digest alone. */
  predicate KeepsCookie(o: Own, id: Id, n: string) {
    CookieIn(o.after, id, n) == CookieIn(o.before, id, n) && DigestIn(o.after, id, n) == DigestIn(o.before, id, n)
  }

  /** It leaves every other cookie of every session alone. */
  lemma CookiesKept(cfg: Config, h: Handle, ask: Ask, now: int, mint: Option<Id>, read: Turn, commit: Turn, id: Id, n: string)
    requires id != h.sid || !WritesName(ask.cookies, n)
    ensures forall o <- Tried(cfg, h, ask, now, mint, read, commit).steps :: KeepsCookie(o, id, n)
    ensures id == h.sid ==>
              var g := Tried(cfg, h, ask, now, mint, read, commit).handle;
              Lookup(g.cookies, n) == Lookup(h.cookies, n) && Lookup(g.shas, n) == Lookup(h.shas, n)
  {
    if !read.fails && h.sid in read.seen.sessions {
      var c := Decide(cfg, h, RowRead(h, read), now, ask, MintedOr(mint));
      CommitKeepsOthers(commit.seen, h.sid, c, id, n);
      if id == h.sid {
        BatchKeepsOthers(h.cookies, c.cookies, false, n);
        BatchKeepsOthers(h.shas, c.cookies, true, n);
      }
    }
  }

  // ---- rotation and binding as operations of their own ----------------------------------------------

  /** Nothing but the keys and the session's last rotation differs. */
  ghost predicate OnlyRotated(o: Own, sid: Id, now: int) {
    && sid in o.before.sessions && o.after.owners == o.before.owners
    && (forall id :: RowOf(o.after.cookies, id) == RowOf(o.before.cookies, id) && RowOf(o.after.shas, id) == RowOf(o.before.shas, id))
    && var x := o.before.sessions[sid];
       o.after.sessions == o.before.sessions[sid := x.(lastAccess := Max(x.lastAccess, 0), lastRotation := Max(x.lastRotation, now))]
  }

  /** A rotation that succeeds swaps the key exactly when it is forced, or was found due and
      still is, and no fresh key is pending; otherwise nothing happens. */
  lemma RotationIsExact(cfg: Config, h: Handle, force: bool, now: int, mint: Option<Id>, read: Turn, commit: Turn)
    requires Rotated(cfg, h, force, now, mint, read, commit).result == Done
    ensures var a := Rotated(cfg, h, force, now, mint, read, commit);
            if !h.rewrite && (force || (h.rotateDue && h.sid in read.seen.sessions && now >= RowRead(h, read).lastRotation + cfg.rotateInterval / SECOND))
            then |a.steps| == 2 && a.steps[1].before == commit.seen && KeySwapped(a.steps[1], h, a.handle, mint) && OnlyRotated(a.steps[1], h.sid, now)
            else a.handle == h && forall o <- a.steps :: Idle(o)
  {
    if mint.Some? && Apply(commit.seen, h.sid, RotateOnly(h, mint.value, now)).1 == Ok { OnlyRotates(commit.seen, h, mint.value, now); }
  }

  lemma OnlyRotates(s: Store, h: Handle, mint: Id, now: int)
    requires Apply(s, h.sid, RotateOnly(h, mint, now)).1 == Ok
    ensures var o := Own(s, Apply(s, h.sid, RotateOnly(h, mint, now)).0);
            KeySwapped(o, h, Sessions.Rekeyed(h, RotateOnly(h, mint, now)), Some(mint)) && OnlyRotated(o, h.sid, now)
  {
  }

  /** Nobody else changed the session's owner between the three steps of a bind. */
  predicate SameOwner(h: Handle, first: Turn, read: Turn, commit: Turn) {
    && h.sid in first.seen.sessions && h.sid in read.seen.sessions && h.sid in commit.seen.sessions
    && first.seen.sessions[h.sid].owner == read.seen.sessions[h.sid].owner == commit.seen.sessions[h.sid].owner
  }

  /** A bind that succeeds leaves the owner in the store and in the handle, and swaps even a
      key that is pending exactly when the owner is another and login rotates. Nobody is
      bound to an owner that is not positive. */
  lemma BindIsExact(cfg: Config, h: Handle, owner: int, now: int, mint: Option<Id>, first: Turn, read: Turn, commit: Turn)
    requires Bound(cfg, h, owner, now, mint, first, read, commit).attempt.result == Done
    ensures var b := Bound(cfg, h, owner, now, mint, first, read, commit);
            && (owner <= 0 ==> !b.rotated && b.attempt.steps == [] && b.attempt.handle == h)
            && (owner > 0 && SameOwner(h, first, read, commit) ==>
                  && |b.attempt.steps| > 1 && h.sid in Last(b.attempt).sessions
                  && Last(b.attempt).sessions[h.sid].owner == b.attempt.handle.owner == owner
                  && (b.rotated <==> cfg.rotateOnLogin && first.seen.sessions[h.sid].owner != owner)
                  && (b.rotated ==> KeySwapped(b.attempt.steps[|b.attempt.steps| - 1], h, b.attempt.handle, mint))
                  && (!b.rotated ==> forall o <- b.attempt.steps :: SameKeys(o, h, b.attempt.handle)))
  {
    if owner > 0 && SameOwner(h, first, read, commit) {
      var ask := Ask(Some(owner), None, false, false, []);
      var changed := owner != first.seen.sessions[h.sid].owner && cfg.rotateOnLogin;
      var g := if changed && h.rewrite then h.(rewrite := false, newKey := "") else h;
      RowIsExact(cfg, g, ask, now, mint, read, commit);
      RotatesIff(cfg, g, ask, now, mint, read, commit);
    }
  }

  // ---- resolving ---------------------------------------------------------------------------------------

  /** The resolve finds the key, its session, and the session not expired. */
  predicate FindsKey(key: Id, t: Turns) { !t.key.fails && key in t.key.seen.keys }

  predicate FindsSession(key: Id, t: Turns) { FindsKey(key, t) && !t.session.fails && t.key.seen.keys[key] in t.session.seen.sessions }

  predicate FindsLive(key: Id, now: int, t: Turns) {
    && FindsSession(key, t)
    && var x := t.session.seen.sessions[t.key.seen.keys[key]]; now < x.lastAccess + x.inactive && now < x.creation + x.final
  }

  /** The touch and both reads after it work. */
  predicate Loads(key: Id, t: Turns)
    requires FindsKey(key, t)
  {
    var sid := t.key.seen.keys[key];
    !t.touch.fails && sid in t.touch.seen.sessions && Maps(t.touch.seen, key, sid) && !t.cookies.fails && !t.shas.fails
  }

  /** A resolve returns a handle exactly if it finds a live session and can load it. It
      reports an error exactly if a step it takes fails or the key is lost before the touch;
      a key that leads nowhere or to an expired session is no error. */
  lemma ResolveEnds(cfg: Config, own: seq<Own>, key: Id, now: int, t: Turns)
    ensures var f := Resolving(cfg, own, key, now, t);
            && (f.live.Some? <==> FindsLive(key, now, t) && Loads(key, t))
            && (f.failed <==>
                  || t.key.fails
                  || (FindsKey(key, t) && t.session.fails)
                  || (FindsLive(key, now, t) && !Loads(key, t)))
  {
  }
}
