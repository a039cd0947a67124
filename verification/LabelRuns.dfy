/** Labels along runs of the protocol: what is stored is canonical, so a grant rotates the
    key exactly when it names another set of labels than the session has. */
module LabelRuns {
  import opened Stores
  import opened Sessions
  import opened Protocol
  import opened ProtocolRuns
  import opened Labels
  import Response

  /** A grant names tokens only. */
  predicate TokenGrant(a: Action) { a.ReadControls? && a.ask.labels.Some? ==> Tokens(a.ask.labels.value) }

  /** What a response's headers grant always does. */
  lemma HeadersGrantTokens(values: seq<string>)
    ensures Response.LabelGrant(values).Some? ==> Tokens(Response.LabelGrant(values).value)
  {
    SplitsAreTokens(Response.JoinCommas(values));
    GrantableTokens(SplitLabels(Response.JoinCommas(values)));
  }

  lemma {:induction false} GrantableTokens(labels: seq<string>)
    requires Tokens(labels)
    ensures Tokens(Response.Grantable(labels))
  {
    if labels != [] {
      assert labels[|labels| - 1] in labels && forall t <- labels[..|labels| - 1] :: t in labels;
      GrantableTokens(labels[..|labels| - 1]);
    }
  }

  /** The label strings that may be in a store. */
  ghost const STORED: iset<string> := iset s | InStoredForm(s)

  /** The labels a request is about to store are among the given ones. */
  ghost predicate AboutToStore(q: Req, good: iset<string>) {
    match q
    case Minted(_, _, x) => x.labels in good
    case Deciding(_, _, c, _) => c.setLabels ==> c.labels in good
    case _ => true
  }

  ghost predicate AllIn(s: Store, good: iset<string>) { forall id <- s.sessions :: s.sessions[id].labels in good }

  ghost predicate LabelsIn(w: World, good: iset<string>) { AllIn(w.store, good) && forall r <- w.reqs :: AboutToStore(w.reqs[r], good) }

  lemma NoLabelsStored()
    ensures "" in STORED
  {
    assert Fields("") == [] && Normalize([]) == "";
  }

  lemma DecisionIsStored(cfg: Config, g: Handle, x: Session, at: int, ask: Ask, mint: Id)
    requires ask.labels.Some? ==> Tokens(ask.labels.value)
    ensures var c := Decide(cfg, g, x, at, ask, mint); c.setLabels ==> c.labels in STORED
  {
    if ask.labels.Some? { NormalizedIsStored(ask.labels.value); }
  }

  lemma ControlsKeepLabels(cfg: Config, w: World, r: nat, h: Handle, g: Handle, ask: Ask, at: int, mint: Id, good: iset<string>)
    requires LabelsIn(w, good) && g.sid == h.sid
    requires h.sid in w.store.sessions ==> var c := Decide(cfg, g, w.store.sessions[h.sid], at, ask, mint); c.setLabels ==> c.labels in good
    ensures LabelsIn(AfterControls(cfg, w, r, h, g, ask, at, mint), good)
  {
  }

  lemma CommitKeepsLabels(w: World, r: nat, q: Req, fails: bool, good: iset<string>)
    requires q.Deciding? && LabelsIn(w, good) && AboutToStore(q, good)
    ensures LabelsIn(AfterCommit(w, r, q, fails), good)
  {
  }

  lemma StepKeepsLabels(cfg: Config, w: World, a: Action)
    requires Enabled(cfg, w, a) && TokenGrant(a) && LabelsIn(w, STORED)
    ensures LabelsIn(Next(cfg, w, a), STORED)
  {
    if a.ReadControls? {
      var q := w.reqs[a.r];
      var g := Unpended(q.h, q.Binding? && q.suppressed);
      if q.h.sid in w.store.sessions { DecisionIsStored(cfg, g, w.store.sessions[q.h.sid], a.at, a.ask, a.mint); }
      ControlsKeepLabels(cfg, w, a.r, q.h, g, a.ask, a.at, a.mint, STORED);
    } else if a.Commit? {
      CommitKeepsLabels(w, a.r, w.reqs[a.r], a.fails, STORED);
    } else {
      NoLabelsStored();
      OtherStepsKeepLabels(cfg, w, a, STORED);
    }
  }

  lemma OtherStoresKeep(cfg: Config, w: World, a: Action, good: iset<string>)
    requires Enabled(cfg, w, a) && !a.ReadControls? && !a.Commit? && LabelsIn(w, good)
    ensures AllIn(Next(cfg, w, a).store, good)
  {
    if a.PutSession? { assert AboutToStore(w.reqs[a.r], good); }
  }

  lemma StartsKeep(cfg: Config, w: World, a: Action, r: nat, good: iset<string>)
    requires Enabled(cfg, w, a) && (a.Begin? || a.Present? || a.ListOwner? || a.Expire?) && "" in good
    requires r in Next(cfg, w, a).reqs && (r in w.reqs ==> AboutToStore(w.reqs[r], good))
    ensures AboutToStore(Next(cfg, w, a).reqs[r], good)
  {
  }

  lemma OthersKeep(cfg: Config, w: World, a: Action, r: nat, good: iset<string>)
    requires Enabled(cfg, w, a) && !(a.Begin? || a.Present? || a.ListOwner? || a.Expire? || a.ReadControls? || a.Commit?)
    requires r in Next(cfg, w, a).reqs && (r in w.reqs ==> AboutToStore(w.reqs[r], good))
    ensures AboutToStore(Next(cfg, w, a).reqs[r], good)
  {
  }

  lemma OtherStepsKeepLabels(cfg: Config, w: World, a: Action, good: iset<string>)
    requires Enabled(cfg, w, a) && !a.ReadControls? && !a.Commit? && LabelsIn(w, good) && "" in good
    ensures LabelsIn(Next(cfg, w, a), good)
  {
    OtherStoresKeep(cfg, w, a, good);
    forall r | r in Next(cfg, w, a).reqs ensures AboutToStore(Next(cfg, w, a).reqs[r], good) {
      if a.Begin? || a.Present? || a.ListOwner? || a.Expire? { StartsKeep(cfg, w, a, r, good); } else { OthersKeep(cfg, w, a, r, good); }
    }
  }

  lemma {:induction false} RunKeepsLabels(cfg: Config, w: World, run: seq<Action>)
    requires LabelsIn(w, STORED) && Possible(cfg, w, run) && forall a <- run :: TokenGrant(a)
    ensures LabelsIn(Run(cfg, w, run), STORED)
    decreases |run|
  {
    if run != [] {
      assert run[0] in run && forall a <- run[1..] :: a in run;
      StepKeepsLabels(cfg, w, run[0]);
      RunKeepsLabels(cfg, Next(cfg, w, run[0]), run[1..]);
    }
  }

  /** In every reachable world a grant changes the stored labels exactly when it names a
      different set than the session carries, and a grant that asks for nothing else
      rotates the key exactly then, unless a fresh key is pending anyway. */
  lemma RotatesIffLabelsChange(cfg: Config, run: seq<Action>, h: Handle, ask: Ask, at: int, mint: Id)
    requires Possible(cfg, INITIAL, run) && (forall a <- run :: TokenGrant(a)) && ask.labels.Some? && Tokens(ask.labels.value)
    requires h.sid in Run(cfg, INITIAL, run).store.sessions
    ensures var x := Run(cfg, INITIAL, run).store.sessions[h.sid];
            var c, changed := Decide(cfg, h, x, at, ask, mint), Elements(Fields(x.labels)) != Elements(ask.labels.value);
            && (c.setLabels <==> changed)
            && (ask.owner.None? && !ask.force && !(ask.periodic && RotationDue(cfg, x, at)) ==> (c.rotate <==> changed && !h.rewrite))
  {
    RunKeepsLabels(cfg, INITIAL, run);
    assert InStoredForm(Run(cfg, INITIAL, run).store.sessions[h.sid].labels);
    DiffersIff(Run(cfg, INITIAL, run).store.sessions[h.sid].labels, ask.labels.value);
  }
}
