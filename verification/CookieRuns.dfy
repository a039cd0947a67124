/** Cookies along runs of the protocol: every stored digest is that of its cookie, and what
    a commit wrote is what later resolves find. */
module CookieRuns {
  import opened Stores
  import opened Sessions
  import opened Protocol
  import opened ProtocolSteps
  import opened ProtocolRuns
  import opened Manager

  // ---- digests ----------------------------------------------------------------------------------------

  /** Both tables hold the same names, and every digest is that of the cookie. */
  ghost predicate Digested(hash: string -> string, s: Store) {
    forall id, n :: DigestIn(s, id, n) == Hashed(hash, CookieIn(s, id, n))
  }

  function Hashed(hash: string -> string, v: Option<string>): Option<string> { if v.None? then None else Some(hash(v.value)) }

  predicate Proper(hash: string -> string, muts: seq<CookieMutation>) { forall m <- muts :: !m.delete ==> m.sha == hash(m.value) }

  /** What a request is about to write comes with its digests. */
  predicate AboutToWrite(hash: string -> string, q: Req) { q.Deciding? ==> Proper(hash, q.c.cookies) }

  ghost predicate CookiesOk(hash: string -> string, w: World) {
    Digested(hash, w.store) && forall r <- w.reqs :: AboutToWrite(hash, w.reqs[r])
  }

  lemma {:induction false} BatchDigests(hash: string -> string, row: map<string, string>, shas: map<string, string>, muts: seq<CookieMutation>, n: string)
    requires Proper(hash, muts) && Lookup(shas, n) == Hashed(hash, Lookup(row, n))
    ensures Lookup(Batch(shas, muts, true), n) == Hashed(hash, Lookup(Batch(row, muts, false), n))
  {
    if muts != [] {
      assert muts[|muts| - 1] in muts && forall m <- muts[..|muts| - 1] :: m in muts;
      BatchDigests(hash, row, shas, muts[..|muts| - 1], n);
    }
  }

  lemma ApplyDigests(hash: string -> string, s: Store, id: Id, c: Controls)
    requires Digested(hash, s) && Proper(hash, c.cookies)
    ensures Digested(hash, Apply(s, id, c).0)
  {
    var t := Apply(s, id, c).0;
    forall i, n ensures DigestIn(t, i, n) == Hashed(hash, CookieIn(t, i, n)) {
      assert DigestIn(s, i, n) == Hashed(hash, CookieIn(s, i, n));
      if i == id { BatchDigests(hash, RowOf(s.cookies, id), RowOf(s.shas, id), c.cookies, n); }
    }
  }

  /** Every step but a commit leaves the tables alone, except for sessions it removes. */
  lemma TablesOnlyShrink(cfg: Config, w: World, a: Action) returns (ids: set<Id>)
    requires Enabled(cfg, w, a) && !a.Commit?
    ensures var t := Next(cfg, w, a);
            t.store.cookies == w.store.cookies - ids && t.store.shas == w.store.shas - ids && forall id <- ids :: id !in t.store.sessions
  {
    if a.DeleteExpired? || a.Revoke? || a.DeleteOwned? || a.Expire? { ids := DeletesShrink(cfg, w, a); } else { TablesStay(cfg, w, a); ids := {}; }
  }

  lemma TablesStay(cfg: Config, w: World, a: Action)
    requires Enabled(cfg, w, a) && !a.Commit? && !a.DeleteExpired? && !a.Revoke? && !a.DeleteOwned? && !a.Expire?
    ensures var t := Next(cfg, w, a); t.store.cookies == w.store.cookies && t.store.shas == w.store.shas
  {
    if !MayWrite(a) { StoreStays(cfg, w, a); }
  }

  lemma DeletesShrink(cfg: Config, w: World, a: Action) returns (ids: set<Id>)
    requires Enabled(cfg, w, a) && (a.DeleteExpired? || a.Revoke? || a.DeleteOwned? || a.Expire?)
    ensures var t := Next(cfg, w, a);
            t.store.cookies == w.store.cookies - ids && t.store.shas == w.store.shas - ids && forall id <- ids :: id !in t.store.sessions
  {
    match a
    case DeleteExpired(r, fails) => ids := if fails then {} else {w.reqs[r].sid};
    case Revoke(r, fails) => ids := if fails then {} else {w.reqs[r].h.sid};
    case DeleteOwned(r, sid, fails) =>
      ids := if !fails && sid in w.store.sessions && w.store.sessions[sid].owner == w.reqs[r].owner then {sid} else {};
    case Expire(gone) => ids := gone;
  }

  lemma ShrinkDigests(hash: string -> string, s: Store, t: Store, ids: set<Id>)
    requires Digested(hash, s) && t.cookies == s.cookies - ids && t.shas == s.shas - ids
    ensures Digested(hash, t)
  {
    forall i, n ensures DigestIn(t, i, n) == Hashed(hash, CookieIn(t, i, n)) {
      assert DigestIn(s, i, n) == Hashed(hash, CookieIn(s, i, n));
    }
  }

  /** Decisions come with their digests. */
  lemma DecidesWithDigests(cfg: Config, w: World, r: nat, h: Handle, g: Handle, ask: Ask, at: int, mint: Id, q: nat)
    requires q in AfterControls(cfg, w, r, h, g, ask, at, mint).reqs && (q in w.reqs ==> AboutToWrite(cfg.hash, w.reqs[q]))
    ensures AboutToWrite(cfg.hash, AfterControls(cfg, w, r, h, g, ask, at, mint).reqs[q])
  {
  }

  lemma RequestsKeepDigests(cfg: Config, w: World, a: Action, q: nat)
    requires Enabled(cfg, w, a) && q in Next(cfg, w, a).reqs && (q in w.reqs ==> AboutToWrite(cfg.hash, w.reqs[q]))
    ensures AboutToWrite(cfg.hash, Next(cfg, w, a).reqs[q])
  {
    if a.ReadControls? {
      var m := w.reqs[a.r];
      if !a.fails { DecidesWithDigests(cfg, w, a.r, m.h, Unpended(m.h, m.Binding? && m.suppressed), a.ask, a.at, a.mint, q); }
    } else if !a.ReadRotate? && Next(cfg, w, a).reqs[q].Deciding? {
      OthersDecideNothing(cfg, w, a, q);
    }
  }

  lemma OthersDecideNothing(cfg: Config, w: World, a: Action, q: nat)
    requires Enabled(cfg, w, a) && !a.ReadControls? && !a.ReadRotate? && q in Next(cfg, w, a).reqs && Next(cfg, w, a).reqs[q].Deciding?
    ensures q in w.reqs && Next(cfg, w, a).reqs[q] == w.reqs[q]
  {
  }

  lemma StepKeepsDigests(cfg: Config, w: World, a: Action)
    requires Enabled(cfg, w, a) && CookiesOk(cfg.hash, w)
    ensures CookiesOk(cfg.hash, Next(cfg, w, a))
  {
    forall q | q in Next(cfg, w, a).reqs ensures AboutToWrite(cfg.hash, Next(cfg, w, a).reqs[q]) { RequestsKeepDigests(cfg, w, a, q); }
    if a.Commit? {
      assert AboutToWrite(cfg.hash, w.reqs[a.r]);
      ApplyDigests(cfg.hash, w.store, w.reqs[a.r].h.sid, w.reqs[a.r].c);
    } else {
      var ids := TablesOnlyShrink(cfg, w, a);
      ShrinkDigests(cfg.hash, w.store, Next(cfg, w, a).store, ids);
    }
  }

  lemma {:induction false} RunKeepsDigests(cfg: Config, w: World, run: seq<Action>)
    requires Possible(cfg, w, run) && CookiesOk(cfg.hash, w)
    ensures CookiesOk(cfg.hash, Run(cfg, w, run))
    decreases |run|
  {
    if run != [] {
      StepKeepsDigests(cfg, w, run[0]);
      RunKeepsDigests(cfg, Next(cfg, w, run[0]), run[1..]);
    }
  }

  /** In every reachable world the two tables hold the same cookies, and every digest is
      that of the value stored next to it. */
  lemma DigestsMatch(cfg: Config, run: seq<Action>, id: Id, n: string)
    requires Possible(cfg, INITIAL, run)
    ensures var s := Run(cfg, INITIAL, run).store;
            && (n in RowOf(s.shas, id) <==> n in RowOf(s.cookies, id))
            && (n in RowOf(s.cookies, id) ==> RowOf(s.shas, id)[n] == cfg.hash(RowOf(s.cookies, id)[n]))
  {
    RunKeepsDigests(cfg, INITIAL, run);
    var s := Run(cfg, INITIAL, run).store;
    assert DigestIn(s, id, n) == Hashed(cfg.hash, CookieIn(s, id, n));
  }

  // ---- what was written is found again ----------------------------------------------------------------------

  /** The step is a commit that goes through. */
  predicate Succeeds(w: World, a: Action) {
    a.Commit? && At(w, a.r) && w.reqs[a.r].Deciding? && !a.fails && Apply(w.store, w.reqs[a.r].h.sid, w.reqs[a.r].c).1 == Ok
  }

  predicate Rewrites(w: World, a: Action, sid: Id, n: string) {
    Succeeds(w, a) && w.reqs[a.r].h.sid == sid && Mentions(w.reqs[a.r].c.cookies, n)
  }

  /** Along the run no commit that goes through mentions the cookie. */
  ghost predicate Unwritten(cfg: Config, w: World, run: seq<Action>, sid: Id, n: string)
    requires Possible(cfg, w, run)
    decreases |run|
  {
    run != [] ==> !Rewrites(w, run[0], sid, n) && Unwritten(cfg, Next(cfg, w, run[0]), run[1..], sid, n)
  }

  lemma StepKeepsCookie(cfg: Config, w: World, a: Action, sid: Id, n: string)
    requires Enabled(cfg, w, a) && !Rewrites(w, a, sid, n) && sid in Next(cfg, w, a).store.sessions
    ensures var t := Next(cfg, w, a).store; CookieIn(t, sid, n) == CookieIn(w.store, sid, n) && DigestIn(t, sid, n) == DigestIn(w.store, sid, n)
  {
    if a.Commit? {
      var q := w.reqs[a.r];
      if Succeeds(w, a) { CommitKeepsOthers(w.store, q.h.sid, q.c, sid, n); }
    } else {
      var ids := TablesOnlyShrink(cfg, w, a);
    }
  }

  /** A cookie stays as it is along every run that does not write it, for as long as its
      session is there; with the session it is gone. */
  lemma {:induction false} RunKeepsCookie(cfg: Config, w: World, run: seq<Action>, sid: Id, n: string)
    requires Inv(cfg, w) && Possible(cfg, w, run) && Unwritten(cfg, w, run, sid, n) && sid in w.store.sessions
    ensures var t := Run(cfg, w, run).store;
            && CookieIn(t, sid, n) == (if sid in t.sessions then CookieIn(w.store, sid, n) else None)
            && DigestIn(t, sid, n) == (if sid in t.sessions then DigestIn(w.store, sid, n) else None)
    decreases |run|
  {
    if run != [] {
      var t := Next(cfg, w, run[0]);
      Step(cfg, w, run[0]);
      if sid in t.store.sessions {
        StepKeepsCookie(cfg, w, run[0], sid, n);
        RunKeepsCookie(cfg, t, run[1..], sid, n);
      } else {
        StepKillsSession(cfg, w, run[0], sid);
        DeadStaysDead(cfg, t, run[1..], sid);
        RunKeepsInv(cfg, t, run[1..]);
        GoneWithItsSession(Run(cfg, t, run[1..]).store, sid, n);
      }
    }
  }

  lemma GoneWithItsSession(s: Store, sid: Id, n: string)
    requires Rooted(s) && sid !in s.sessions
    ensures CookieIn(s, sid, n).None? && DigestIn(s, sid, n).None?
  {
  }

  /** What a commit wrote last under a name, and its digest. */
  function WrittenBy(w: World, a: Action, i: nat): Option<string>
    requires Succeeds(w, a) && IsLast(w.reqs[a.r].c.cookies, i)
  {
    var m := w.reqs[a.r].c.cookies[i]; if m.delete then None else Some(m.value)
  }

  /** After a commit went through, and along every run that does not write the cookie again,
      its session holds the value written last and its digest, or neither after a delete. */
  lemma CommitLasts(cfg: Config, w: World, a: Action, run: seq<Action>, i: nat)
    requires Inv(cfg, w) && CookiesOk(cfg.hash, w) && Succeeds(w, a) && IsLast(w.reqs[a.r].c.cookies, i)
    requires Possible(cfg, Next(cfg, w, a), run) && Unwritten(cfg, Next(cfg, w, a), run, w.reqs[a.r].h.sid, w.reqs[a.r].c.cookies[i].name)
    ensures var sid, n := w.reqs[a.r].h.sid, w.reqs[a.r].c.cookies[i].name;
            var t := Run(cfg, Next(cfg, w, a), run).store;
            && CookieIn(t, sid, n) == (if sid in t.sessions then WrittenBy(w, a, i) else None)
            && DigestIn(t, sid, n) == (if sid in t.sessions then Hashed(cfg.hash, WrittenBy(w, a, i)) else None)
  {
    var q := w.reqs[a.r];
    var m := q.c.cookies[i];
    Step(cfg, w, a);
    CommitWrites(w.store, q.h.sid, q.c, i);
    assert AboutToWrite(cfg.hash, q) && m in q.c.cookies;
    RunKeepsCookie(cfg, Next(cfg, w, a), run, q.h.sid, m.name);
  }

  /** The round trip: a commit in `w` writes a cookie; the run goes on to the worlds in which
      a resolve reads the session's cookies and then its digests, and nobody writes the
      cookie again before. A resolve that returns a handle of that session has the value
      written, and its digest, if the session is still there at those reads. */
  lemma CookieComesBack(cfg: Config, w: World, a: Action, run: seq<Action>, more: seq<Action>, i: nat, key: Id, at: int, t: Turns, own: seq<Own>)
    requires Inv(cfg, w) && CookiesOk(cfg.hash, w) && Succeeds(w, a) && IsLast(w.reqs[a.r].c.cookies, i)
    requires Possible(cfg, Next(cfg, w, a), run) && Possible(cfg, Next(cfg, w, a), more)
    requires Unwritten(cfg, Next(cfg, w, a), run, w.reqs[a.r].h.sid, w.reqs[a.r].c.cookies[i].name)
    requires Unwritten(cfg, Next(cfg, w, a), more, w.reqs[a.r].h.sid, w.reqs[a.r].c.cookies[i].name)
    requires t.cookies.seen == Run(cfg, Next(cfg, w, a), run).store && t.shas.seen == Run(cfg, Next(cfg, w, a), more).store
    requires var f := Resolving(cfg, own, key, at, t); f.live.Some? && f.live.value.sid == w.reqs[a.r].h.sid
    ensures var h, n := Resolving(cfg, own, key, at, t).live.value, w.reqs[a.r].c.cookies[i].name;
            && Lookup(h.cookies, n) == (if h.sid in t.cookies.seen.sessions then WrittenBy(w, a, i) else None)
            && Lookup(h.shas, n) == (if h.sid in t.shas.seen.sessions then Hashed(cfg.hash, WrittenBy(w, a, i)) else None)
  {
    HandleShowsRows(cfg, own, key, at, t);
    CommitLasts(cfg, w, a, run, i);
    CommitLasts(cfg, w, a, more, i);
  }

  lemma HandleShowsRows(cfg: Config, own: seq<Own>, key: Id, at: int, t: Turns)
    requires Resolving(cfg, own, key, at, t).live.Some?
    ensures var h := Resolving(cfg, own, key, at, t).live.value;
            forall n :: Lookup(h.cookies, n) == CookieIn(t.cookies.seen, h.sid, n) && Lookup(h.shas, n) == DigestIn(t.shas.seen, h.sid, n)
  {
  }

  // ---- a session deleted between touch and read ----------------------------------------------------------------

  lemma {:induction false} Longer(cfg: Config, w: World, run: seq<Action>, a: Action)
    requires Possible(cfg, w, run) && Enabled(cfg, Run(cfg, w, run), a)
    ensures Possible(cfg, w, run + [a]) && Run(cfg, w, run + [a]) == Next(cfg, Run(cfg, w, run), a)
    decreases |run|
  {
    if run == [] {
      assert [a][1..] == [];
      assert run + [a] == [a];
    } else {
      assert (run + [a])[0] == run[0] && (run + [a])[1..] == run[1..] + [a];
      Longer(cfg, Next(cfg, w, run[0]), run[1..], a);
    }
  }

  predicate Keeps(cfg: Config) { cfg.inactive >= SECOND && cfg.final >= SECOND }

  /** A session is created and its client has the key; a response has stored a cookie. */
  lemma SessionWithCookie(cfg: Config, n: string, v: string) returns (run: seq<Action>, w: World, a: Action)
    requires Keeps(cfg)
    ensures Possible(cfg, INITIAL, run) && Run(cfg, INITIAL, run) == w && a == Commit(0, false) && Succeeds(w, a)
    ensures w.store == Store(map["s" := NewSession(cfg, 0)], map["k" := "s"], map[], map[], map[]) && w.next == 1 && w.reqs.Keys == {0}
    ensures w.reqs[0].h.sid == "s" && w.reqs[0].c.cookies == [CookieMutation(n, v, cfg.hash(v), false)]
    ensures !w.reqs[0].c.rotate && w.reqs[0].c.lastAccess == 0
    ensures w.status == map["s" := Held(0), "k" := Held(0)] && w.reqs[0].after.key == w.reqs[0].after.newKey == "k" && w.reqs[0].after.rewrite
  {
    run := [];
    Longer(cfg, INITIAL, run, Begin("s", "k", 0));
    run := run + [Begin("s", "k", 0)];
    Longer(cfg, INITIAL, run, Action.PutSession(0, false));
    run := run + [Action.PutSession(0, false)];
    Longer(cfg, INITIAL, run, Action.PutKey(0, false));
    run := run + [Action.PutKey(0, false)];
    var ask := Ask(None, None, false, false, [CookieWrite(n, v, false)]);
    assert Run(cfg, INITIAL, run).store.sessions == map["s" := NewSession(cfg, 0)];
    Longer(cfg, INITIAL, run, ReadControls(0, ask, 0, "m", false));
    run := run + [ReadControls(0, ask, 0, "m", false)];
    w, a := Run(cfg, INITIAL, run), Commit(0, false);
  }

  lemma ReadyAfterCommit(cfg: Config, w: World, a: Action)
    requires a == Commit(0, false) && Succeeds(w, a) && w.reqs.Keys == {0} && w.next == 1 && w.reqs[0].h.sid == "s"
    requires w.store == Store(map["s" := NewSession(cfg, 0)], map["k" := "s"], map[], map[], map[])
    requires !w.reqs[0].c.rotate && w.reqs[0].c.lastAccess == 0
    ensures var u := Next(cfg, w, a);
            && u.store.sessions.Keys == {"s"} && u.store.keys == map["k" := "s"] && u.next == 1 && u.status == w.status
            && u.reqs.Keys == {0} && u.reqs[0] == Ready(w.reqs[0].after)
            && var x := u.store.sessions["s"];
               x.inactive == Seconds(cfg.inactive) && x.final == Seconds(cfg.final) && x.creation == x.lastAccess == 0
  {
  }

  /** The key is delivered, and a request made with it has got past its touch. */
  lemma KeyPresented(cfg: Config, w: World) returns (run: seq<Action>, t: World)
    requires Keeps(cfg) && w.store.sessions.Keys == {"s"} && w.store.keys == map["k" := "s"] && w.next == 1
    requires w.store.sessions["s"].inactive >= 1 && w.store.sessions["s"].final >= 1 && w.store.sessions["s"].creation == w.store.sessions["s"].lastAccess == 0
    requires w.reqs.Keys == {0} && w.reqs[0].Ready? && w.reqs[0].h.rewrite && w.reqs[0].h.newKey == "k" && "k" in w.status
    ensures run == [Deliver(0), Present("k"), GetKey(1, false), GetSession(1, false, 0), Action.Touch(1, false)]
    ensures Possible(cfg, w, run) && Run(cfg, w, run) == t && t.store.sessions.Keys == {"s"}
    ensures 1 in t.reqs && t.reqs[1].Resolved? && t.reqs[1].h.sid == "s"
  {
    run := [];
    Longer(cfg, w, run, Deliver(0));
    run := run + [Deliver(0)];
    Longer(cfg, w, run, Present("k"));
    run := run + [Present("k")];
    Longer(cfg, w, run, GetKey(1, false));
    run := run + [GetKey(1, false)];
    Longer(cfg, w, run, GetSession(1, false, 0));
    run := run + [GetSession(1, false, 0)];
    Longer(cfg, w, run, Action.Touch(1, false));
    run := run + [Action.Touch(1, false)];
    t := Run(cfg, w, run);
  }

  lemma ReadsNothing(cfg: Config, w: World, run: seq<Action>) returns (h: Handle)
    requires Possible(cfg, w, run)
    requires var t := Run(cfg, w, run); 1 in t.reqs && t.reqs[1].Resolved? && t.reqs[1].h.sid == "s"
    ensures var all := run + [Action.Expire({"s"})] + [GetCookies(1, false)] + [GetShas(1, false)];
            && Possible(cfg, w, all) && 1 in Run(cfg, w, all).reqs && Run(cfg, w, all).reqs[1] == Ready(h)
            && h.sid == "s" && h.cookies == map[] && h.shas == map[]
  {
    Longer(cfg, w, run, Action.Expire({"s"}));
    Longer(cfg, w, run + [Action.Expire({"s"})], GetCookies(1, false));
    Longer(cfg, w, run + [Action.Expire({"s"})] + [GetCookies(1, false)], GetShas(1, false));
    h := Run(cfg, w, run + [Action.Expire({"s"})] + [GetCookies(1, false)] + [GetShas(1, false)]).reqs[1].h;
  }

  /** The condition is needed: a resolve whose session is deleted after its touch and before
      its reads returns a handle without the cookie that was stored. */
  lemma DeletedMeanwhile(cfg: Config, n: string, v: string) returns (before: seq<Action>, w: World, a: Action, run: seq<Action>, h: Handle)
    requires Keeps(cfg)
    ensures Possible(cfg, INITIAL, before) && Run(cfg, INITIAL, before) == w
    ensures Succeeds(w, a) && w.reqs[a.r].h.sid == "s" && w.reqs[a.r].c.cookies == [CookieMutation(n, v, cfg.hash(v), false)]
    ensures run == [Deliver(0), Present("k"), GetKey(1, false), GetSession(1, false, 0), Action.Touch(1, false),
                    Action.Expire({"s"}), GetCookies(1, false), GetShas(1, false)]
    ensures Possible(cfg, Next(cfg, w, a), run) && 1 in Run(cfg, Next(cfg, w, a), run).reqs
    ensures Run(cfg, Next(cfg, w, a), run).reqs[1] == Ready(h) && h.sid == "s" && h.cookies == map[] && h.shas == map[]
  {
    before, w, a := SessionWithCookie(cfg, n, v);
    ReadyAfterCommit(cfg, w, a);
    var t;
    run, t := KeyPresented(cfg, Next(cfg, w, a));
    h := ReadsNothing(cfg, Next(cfg, w, a), run);
    run := run + [Action.Expire({"s"})] + [GetCookies(1, false)] + [GetShas(1, false)];
  }
}
