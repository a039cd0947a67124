/** How long a session lives, told from its run: what it was created with, when it was used
    and when its key was rotated decide when its key still resolves. */
module Lifetimes {
  import opened Stores
  import opened Sessions
  import opened Protocol
  import opened ProtocolSteps
  import opened ProtocolRuns
  import opened Manager

  /** When a session was last used, and when its key was last rotated. */
  datatype Clock = Clock(used: int, rotated: int)

  /** The touch goes through: the key still leads to the session. */
  predicate Touches(w: World, a: Action, sid: Id) {
    && a.Touch? && At(w, a.r) && w.reqs[a.r].Read? && !a.fails
    && w.reqs[a.r].sid == sid && sid in w.store.sessions && Maps(w.store, w.reqs[a.r].key, sid)
  }

  predicate Commits(w: World, a: Action, sid: Id) {
    && a.Commit? && At(w, a.r) && w.reqs[a.r].Deciding? && !a.fails
    && w.reqs[a.r].h.sid == sid && Apply(w.store, sid, w.reqs[a.r].c).1 == Ok
  }

  /** Touches and commits move the clock, and never back. A session without a rotation time
      gets the one the touch was read with, or starts now if rotation is on. */
  function Ticked(cfg: Config, w: World, a: Action, sid: Id, c: Clock): Clock {
    if Touches(w, a, sid) then
      var q := w.reqs[a.r];
      Clock(Max(c.used, q.at),
            if c.rotated != 0 then c.rotated
            else if cfg.rotateInterval != 0 && q.x.lastRotation == 0 then q.at else q.x.lastRotation)
    else if Commits(w, a, sid) then Clock(Max(c.used, w.reqs[a.r].c.lastAccess), Max(c.rotated, w.reqs[a.r].c.lastRotation))
    else c
  }

  function Clocked(cfg: Config, w: World, run: seq<Action>, sid: Id, c: Clock): Clock
    requires Possible(cfg, w, run)
    decreases |run|
  {
    if run == [] then c else Clocked(cfg, Next(cfg, w, run[0]), run[1..], sid, Ticked(cfg, w, run[0], sid, c))
  }

  /** The row is that of a session created at `born` under the configuration. */
  predicate RowAged(cfg: Config, x: Session, born: int, c: Clock) {
    && x.creation == born && x.inactive == cfg.inactive / SECOND && x.final == cfg.final / SECOND
    && x.lastAccess == c.used && x.lastRotation == c.rotated
  }

  /** So is the row of the session, stored or about to be. */
  ghost predicate Aged(cfg: Config, w: World, sid: Id, born: int, c: Clock) {
    && (forall r <- w.reqs :: Creates(w.reqs[r], sid) ==> RowAged(cfg, w.reqs[r].x, born, c))
    && (sid in w.store.sessions ==> RowAged(cfg, w.store.sessions[sid], born, c))
  }

  lemma TouchAges(cfg: Config, w: World, a: Action, sid: Id, born: int, c: Clock)
    requires Enabled(cfg, w, a) && a.Touch? && sid in w.store.sessions && RowAged(cfg, w.store.sessions[sid], born, c)
    ensures sid in Next(cfg, w, a).store.sessions && RowAged(cfg, Next(cfg, w, a).store.sessions[sid], born, Ticked(cfg, w, a, sid, c))
  {
  }

  lemma CommitAges(cfg: Config, w: World, a: Action, sid: Id, born: int, c: Clock)
    requires Enabled(cfg, w, a) && a.Commit? && sid in w.store.sessions && RowAged(cfg, w.store.sessions[sid], born, c)
    ensures sid in Next(cfg, w, a).store.sessions && RowAged(cfg, Next(cfg, w, a).store.sessions[sid], born, Ticked(cfg, w, a, sid, c))
  {
  }

  lemma OthersLeaveRow(cfg: Config, w: World, a: Action, sid: Id)
    requires Enabled(cfg, w, a) && !a.Touch? && !a.Commit? && sid in Next(cfg, w, a).store.sessions
    ensures if a.PutSession? && !a.fails && w.reqs[a.r].sid == sid then Next(cfg, w, a).store.sessions[sid] == w.reqs[a.r].x
            else sid in w.store.sessions && Next(cfg, w, a).store.sessions[sid] == w.store.sessions[sid]
  {
    if !MayWrite(a) { StoreStays(cfg, w, a); } else if !a.PutSession? && !a.PutKey? { DeletesLeaveRow(cfg, w, a, sid); }
  }

  lemma DeletesLeaveRow(cfg: Config, w: World, a: Action, sid: Id)
    requires Enabled(cfg, w, a) && (a.DeleteExpired? || a.Revoke? || a.DeleteOwned? || a.Expire?) && sid in Next(cfg, w, a).store.sessions
    ensures sid in w.store.sessions && Next(cfg, w, a).store.sessions[sid] == w.store.sessions[sid]
  {
  }

  lemma StartsMintNew(cfg: Config, w: World, a: Action, r: nat, sid: Id)
    requires (a.Begin? || a.Present? || a.ListOwner? || a.Expire?) && Enabled(cfg, w, a) && sid in w.status && r in Next(cfg, w, a).reqs
    ensures Creates(Next(cfg, w, a).reqs[r], sid) ==> r in w.reqs && w.reqs[r] == Next(cfg, w, a).reqs[r]
  {
  }

  lemma OthersMintNothing(cfg: Config, w: World, a: Action, r: nat)
    requires !(a.Begin? || a.Present? || a.ListOwner? || a.Expire?) && Enabled(cfg, w, a) && r in Next(cfg, w, a).reqs
    ensures Next(cfg, w, a).reqs[r].Minted? ==> r in w.reqs && w.reqs[r] == Next(cfg, w, a).reqs[r]
  {
  }

  lemma MintedStays(cfg: Config, w: World, a: Action, r: nat, sid: Id)
    requires Enabled(cfg, w, a) && sid in w.status && r in Next(cfg, w, a).reqs
    ensures Creates(Next(cfg, w, a).reqs[r], sid) ==> r in w.reqs && w.reqs[r] == Next(cfg, w, a).reqs[r]
  {
    if a.Begin? || a.Present? || a.ListOwner? || a.Expire? { StartsMintNew(cfg, w, a, r, sid); } else { OthersMintNothing(cfg, w, a, r); }
  }

  lemma RowAges(cfg: Config, w: World, a: Action, sid: Id, born: int, c: Clock)
    requires Inv(cfg, w) && Enabled(cfg, w, a) && Aged(cfg, w, sid, born, c) && sid in Next(cfg, w, a).store.sessions
    ensures RowAged(cfg, Next(cfg, w, a).store.sessions[sid], born, Ticked(cfg, w, a, sid, c))
  {
    if a.Touch? { TouchAges(cfg, w, a, sid, born, c); }
    else if a.Commit? { CommitAges(cfg, w, a, sid, born, c); }
    else {
      OthersLeaveRow(cfg, w, a, sid);
      if a.PutSession? && !a.fails && w.reqs[a.r].sid == sid { assert Creates(w.reqs[a.r], sid); }
    }
  }

  lemma StepAges(cfg: Config, w: World, a: Action, sid: Id, born: int, c: Clock)
    requires Inv(cfg, w) && Enabled(cfg, w, a) && sid in w.status && Aged(cfg, w, sid, born, c)
    ensures Aged(cfg, Next(cfg, w, a), sid, born, Ticked(cfg, w, a, sid, c)) && sid in Next(cfg, w, a).status
  {
    var t := Next(cfg, w, a);
    Step(cfg, w, a);
    forall r | r in t.reqs && Creates(t.reqs[r], sid) ensures RowAged(cfg, t.reqs[r].x, born, Ticked(cfg, w, a, sid, c)) {
      MintedStays(cfg, w, a, r, sid);
      LiveIsNotPending(cfg, w, sid);
    }
    if sid in t.store.sessions { RowAges(cfg, w, a, sid, born, c); }
  }

  lemma {:induction false} RunAges(cfg: Config, w: World, run: seq<Action>, sid: Id, born: int, c: Clock)
    requires Inv(cfg, w) && Possible(cfg, w, run) && sid in w.status && Aged(cfg, w, sid, born, c)
    ensures Aged(cfg, Run(cfg, w, run), sid, born, Clocked(cfg, w, run, sid, c))
    decreases |run|
  {
    if run != [] {
      Step(cfg, w, run[0]);
      StepAges(cfg, w, run[0], sid, born, c);
      RunAges(cfg, Next(cfg, w, run[0]), run[1..], sid, born, Ticked(cfg, w, run[0], sid, c));
    }
  }

  /** Along every run, a session begun at `born` keeps the configuration's timeouts in whole
      seconds and its time of creation, and its row shows when it was last used and its key
      last rotated. */
  lemma LifeIsExact(cfg: Config, w: World, sid: Id, key: Id, born: int, run: seq<Action>)
    requires Inv(cfg, w) && Enabled(cfg, w, Begin(sid, key, born)) && Possible(cfg, Next(cfg, w, Begin(sid, key, born)), run)
    ensures var u := Next(cfg, w, Begin(sid, key, born));
            var s, c := Run(cfg, u, run).store, Clocked(cfg, u, run, sid, Clock(born, born));
            sid in s.sessions ==>
              && s.sessions[sid].creation == born && s.sessions[sid].lastAccess == c.used && s.sessions[sid].lastRotation == c.rotated
              && s.sessions[sid].inactive == cfg.inactive / SECOND && s.sessions[sid].final == cfg.final / SECOND
  {
    var a := Begin(sid, key, born);
    Step(cfg, w, a);
    BegunIsAged(cfg, w, sid, key, born);
    RunAges(cfg, Next(cfg, w, a), run, sid, born, Clock(born, born));
  }

  lemma BegunIsAged(cfg: Config, w: World, sid: Id, key: Id, born: int)
    requires Inv(cfg, w) && Enabled(cfg, w, Begin(sid, key, born))
    ensures var u := Next(cfg, w, Begin(sid, key, born)); sid in u.status && Aged(cfg, u, sid, born, Clock(born, born))
  {
  }

  // ---- when a key resolves -------------------------------------------------------------------------------

  /** The key leads to the session at the reads and at the touch, and no step fails. */
  predicate Healthy(t: Turns, key: Id, sid: Id) {
    && !t.key.fails && !t.session.fails && !t.touch.fails && !t.cookies.fails && !t.shas.fails
    && Maps(t.key.seen, key, sid) && sid in t.session.seen.sessions && sid in t.touch.seen.sessions && Maps(t.touch.seen, key, sid)
  }

  /** A resolve at `at` of a row of known age. */
  lemma RowResolvesIff(cfg: Config, key: Id, sid: Id, born: int, c: Clock, at: int, t: Turns, own: seq<Own>)
    requires Healthy(t, key, sid) && RowAged(cfg, t.session.seen.sessions[sid], born, c)
    ensures var f := Resolving(cfg, own, key, at, t);
            && (f.live.Some? <==> at - c.used < cfg.inactive / SECOND && at - born < cfg.final / SECOND)
            && !f.failed && |f.steps| > |own| + 2
            && (f.live.None? ==> f.steps[|own| + 2] == Own(t.touch.seen, Delete(t.touch.seen, sid)))
            && (f.live.Some? ==>
                  && f.live.value.key == key && f.live.value.sid == sid
                  && (f.live.value.rotateDue <==> cfg.rotateInterval != 0 && c.rotated != 0 && at - c.rotated >= cfg.rotateInterval / SECOND))
  {
  }

  /** A session begun at `born`, after any run: at `at` its key resolves exactly if it was
      used less than the inactivity timeout ago and begun less than the final timeout ago;
      otherwise the session is deleted. Rotation is due exactly if the interval has gone by
      since the key was last rotated. */
  lemma ResolvesIff(cfg: Config, w: World, sid: Id, first: Id, born: int, run: seq<Action>, key: Id, at: int, t: Turns, own: seq<Own>)
    requires Inv(cfg, w) && Enabled(cfg, w, Begin(sid, first, born)) && Possible(cfg, Next(cfg, w, Begin(sid, first, born)), run)
    requires t.session.seen == Run(cfg, Next(cfg, w, Begin(sid, first, born)), run).store && Healthy(t, key, sid)
    ensures var c, f := Clocked(cfg, Next(cfg, w, Begin(sid, first, born)), run, sid, Clock(born, born)), Resolving(cfg, own, key, at, t);
            && (f.live.Some? <==> at - c.used < cfg.inactive / SECOND && at - born < cfg.final / SECOND)
            && !f.failed && |f.steps| > |own| + 2
            && (f.live.None? ==> f.steps[|own| + 2] == Own(t.touch.seen, Delete(t.touch.seen, sid)))
            && (f.live.Some? ==>
                  && f.live.value.key == key && f.live.value.sid == sid
                  && (f.live.value.rotateDue <==> cfg.rotateInterval != 0 && c.rotated != 0 && at - c.rotated >= cfg.rotateInterval / SECOND))
  {
    LifeIsExact(cfg, w, sid, first, born, run);
    RowResolvesIff(cfg, key, sid, born, Clocked(cfg, Next(cfg, w, Begin(sid, first, born)), run, sid, Clock(born, born)), at, t, own);
  }

  /** Nobody touches the session or commits to it along the run. */
  ghost predicate LeftAlone(cfg: Config, w: World, run: seq<Action>, sid: Id)
    requires Possible(cfg, w, run)
    decreases |run|
  {
    run != [] ==> !Touches(w, run[0], sid) && !Commits(w, run[0], sid) && LeftAlone(cfg, Next(cfg, w, run[0]), run[1..], sid)
  }

  lemma {:induction false} ClockStands(cfg: Config, w: World, run: seq<Action>, sid: Id, c: Clock)
    requires Possible(cfg, w, run) && LeftAlone(cfg, w, run, sid)
    ensures Clocked(cfg, w, run, sid, c) == c
    decreases |run|
  {
    if run != [] { ClockStands(cfg, Next(cfg, w, run[0]), run[1..], sid, c); }
  }

  /** A key begun at `born` and not used since resolves exactly until the shorter of the two
      timeouts is over, and its rotation is not due before the interval is. */
  lemma UnusedResolvesIff(cfg: Config, w: World, sid: Id, key: Id, born: int, run: seq<Action>, at: int, t: Turns, own: seq<Own>)
    requires Inv(cfg, w) && Enabled(cfg, w, Begin(sid, key, born)) && Possible(cfg, Next(cfg, w, Begin(sid, key, born)), run)
    requires LeftAlone(cfg, Next(cfg, w, Begin(sid, key, born)), run, sid)
    requires t.session.seen == Run(cfg, Next(cfg, w, Begin(sid, key, born)), run).store && Healthy(t, key, sid)
    ensures var f := Resolving(cfg, own, key, at, t);
            && (f.live.Some? <==> at - born < cfg.inactive / SECOND && at - born < cfg.final / SECOND)
            && (f.live.Some? && at < born + cfg.rotateInterval / SECOND ==> !f.live.value.rotateDue)
  {
    ResolvesIff(cfg, w, sid, key, born, run, key, at, t, own);
    ClockStands(cfg, Next(cfg, w, Begin(sid, key, born)), run, sid, Clock(born, born));
  }

  /** After a touch of a row, left alone since, the session resolves until the inactivity
      timeout counted from the touch is over or its final limit is reached; a touch by a
      clock that is behind the last use does not count. */
  lemma TouchedResolvesIff(cfg: Config, w: World, a: Action, run: seq<Action>, sid: Id, born: int, c: Clock, key: Id, at: int, t: Turns, own: seq<Own>)
    requires Inv(cfg, w) && sid in w.status && Aged(cfg, w, sid, born, c) && Enabled(cfg, w, a) && Touches(w, a, sid)
    requires Possible(cfg, Next(cfg, w, a), run) && LeftAlone(cfg, Next(cfg, w, a), run, sid)
    requires t.session.seen == Run(cfg, Next(cfg, w, a), run).store && Healthy(t, key, sid)
    ensures Resolving(cfg, own, key, at, t).live.Some? <==>
            at - Max(c.used, w.reqs[a.r].at) < cfg.inactive / SECOND && at - born < cfg.final / SECOND
  {
    var d := Ticked(cfg, w, a, sid, c);
    Step(cfg, w, a);
    StepAges(cfg, w, a, sid, born, c);
    RunAges(cfg, Next(cfg, w, a), run, sid, born, d);
    ClockStands(cfg, Next(cfg, w, a), run, sid, d);
    RowResolvesIff(cfg, key, sid, born, d, at, t, own);
  }
}
