/** Each script against the plain operation it stands for. */
module RedisScripts {
  import opened Stores
  import opened RedisStore
  import opened RedisRefinement

  // ---- the index under a script ----------------------------------------------------

  lemma SameSessionsIndex(db: Db, d: Db)
    requires d.owners == db.owners && d.sess.Keys == db.sess.Keys
    requires forall id <- db.sess :: d.sess[id].v.owner == db.sess[id].v.owner
    ensures Index(d) == Index(db)
  {
    forall o ensures Bound(d, o) == Members(Index(db), o) {
      IndexMembers(db, o);
      assert Bound(d, o) == Bound(db, o);
    }
    SameIndex(d, Index(db));
  }

  lemma DropIndex(db: Db, d: Db, id: Id, o: int)
    requires d.sess == db.sess - {id} && d.owners == SRem(db.owners, o, id)
    ensures Index(d) == Expire(View(db), {id}).owners
  {
    var b := Expire(View(db), {id}).owners;
    forall p ensures Bound(d, p) == Members(b, p) {
      IndexMembers(db, p);
      assert Bound(d, p) == Bound(db, p) - {id};
    }
    SameIndex(d, b);
  }

  // ---- creation -----------------------------------------------------------------

  lemma PutSessionView(db: Db, now: int, final: int, id: Id, x: Session, ttl: int)
    requires id !in db.sess && x.owner == 0 && Extended(db, now, final)
    ensures View(RPutSession(db, now, id, x, ttl)) == PutSession(View(db), id, x)
  {
    var d := RPutSession(db, now, id, x, ttl);
    assert Values(d.sess) == Values(db.sess)[id := x];
    forall o ensures Bound(d, o) == Members(Index(db), o) {
      IndexMembers(db, o);
      assert Bound(d, o) == Bound(db, o);
    }
    SameIndex(d, Index(db));
  }

  lemma PutSessionRefines(db: Db, now: int, final: int, id: Id, x: Session, ttl: int)
    requires Orderly(db, now, final) && id !in db.sess && 0 < ttl <= final * 1000
    requires x.inactive >= 1 && x.final == final && x.creation * 1000 <= now && x.owner == 0
    ensures Orderly(RPutSession(db, now, id, x, ttl), now, final)
    ensures View(RPutSession(db, now, id, x, ttl)) == PutSession(View(db), id, x)
  {
    var d := RPutSession(db, now, id, x, ttl);
    assert Whole(db, id);
    assert Whole(d, id);
    OthersStayWhole(db, d, id);
    TimesFrom(db, d, now, final, id);
    PutSessionView(db, now, final, id, x, ttl);
  }

  lemma PutKeyRefines(db: Db, now: int, final: int, key: Id, id: Id)
    requires Orderly(db, now, final) && key !in db.keys && id !in db.rev
    ensures var (d, code) := RPutKey(db, now, key, id);
            && Orderly(d, now, final)
            && (if code == 1 then PutKey(View(db), key, id) == (View(d), Ok)
                else d == db && (id !in db.sess || db.sess[id].deadline == Some(now)))
  {
    var (d, code) := RPutKey(db, now, key, id);
    if code == 1 {
      assert TimedRow(db.sess[id], now, final);
      assert d.rev == db.rev[id := Row({key}, db.sess[id].deadline)];
      assert Whole(db, id);
      assert Whole(d, id);
      OthersStayWhole(db, d, id);
      assert Values(d.keys) == Values(db.keys)[key := id];
      SameSessionsIndex(db, d);
    }
  }

  // ---- touch ----------------------------------------------------------------------

  /** Refreshing every row of one session to one deadline. */
  lemma RefreshKeeps(db: Db, d: Db, id: Id, key: Id, at: int)
    requires Whole(db, id) && id in db.sess && key in db.keys && db.keys[key].v == id
    requires id in d.sess && d.sess[id].deadline == Some(at) && d.sess - {id} == db.sess - {id}
    requires d.keys == PExpire(db.keys, key, at) && d.rev == PExpire(db.rev, id, at)
    requires d.attr == PExpire(db.attr, id, at) && d.sha == PExpire(db.sha, id, at)
    ensures Whole(d, id) && SameElsewhere(db, d, id)
  {
  }

  lemma TouchRefines(db: Db, now: int, final: int, id: Id, key: Id, access: int, rotation: int, ttl: int)
    requires Orderly(db, now, final)
    ensures var (d, code) := RTouch(db, now, id, key, access, rotation, ttl);
            && Orderly(d, now, final)
            && (if code == 1 then Touch(View(db), id, key, access, rotation) == (View(d), Ok)
                else d == db && (code == -1 ==> Touch(View(db), id, key, access, rotation).1 == Conflict)
                             && (code == 0 ==> id !in db.sess || Granted(db.sess[id].v, access, ttl, now) <= 0))
  {
    var (d, code) := RTouch(db, now, id, key, access, rotation, ttl);
    if code == 1 {
      TouchOrderly(db, d, now, final, id, key, access, rotation, ttl);
      TouchView(db, d, now, id, key, access, rotation, ttl);
    }
  }

  lemma TouchOrderly(db: Db, d: Db, now: int, final: int, id: Id, key: Id, access: int, rotation: int, ttl: int)
    requires Orderly(db, now, final) && RTouch(db, now, id, key, access, rotation, ttl) == (d, 1)
    ensures Orderly(d, now, final)
  {
    var x := db.sess[id].v;
    assert Whole(db, id);
    if access > x.lastAccess {
      RefreshKeeps(db, d, id, key, now + Granted(x, access, ttl, now));
    }
    OthersStayWhole(db, d, id);
    assert TimedRow(db.sess[id], now, final) && CoveredBy(db.owners, id, db.sess[id]);
    TimesFrom(db, d, now, final, id);
  }

  lemma TouchView(db: Db, d: Db, now: int, id: Id, key: Id, access: int, rotation: int, ttl: int)
    requires RTouch(db, now, id, key, access, rotation, ttl) == (d, 1)
    ensures Touch(View(db), id, key, access, rotation) == (View(d), Ok)
  {
    var x := db.sess[id].v;
    assert d.sess == db.sess[id := d.sess[id]] && d.sess[id].v == TouchedSession(x, access, rotation);
    PutValue(db.sess, d.sess, id);
    TouchValues(db, d, now + Granted(x, access, ttl, now), id, key);
    SameSessionsIndex(db, d);
  }

  lemma TouchValues(db: Db, d: Db, at: int, id: Id, key: Id)
    requires d.keys == db.keys || d.keys == PExpire(db.keys, key, at)
    requires d.attr == db.attr || d.attr == PExpire(db.attr, id, at)
    requires d.sha == db.sha || d.sha == PExpire(db.sha, id, at)
    ensures Values(d.keys) == Values(db.keys) && Values(d.attr) == Values(db.attr) && Values(d.sha) == Values(db.sha)
  {
  }

  lemma PutValue<T>(t: map<Id, Row<T>>, u: map<Id, Row<T>>, id: Id)
    requires id in u && u == t[id := u[id]]
    ensures Values(u) == Values(t)[id := u[id].v]
  {
  }

  // ---- deletion ----------------------------------------------------------------------

  lemma CascadeKeys(db: Db, id: Id)
    requires Whole(db, id)
    ensures forall k <- db.keys :: k in MembersOf(db.rev, id) <==> db.keys[k].v == id
    ensures Values(db.keys - MembersOf(db.rev, id)) == KeysOutside(Values(db.keys), {id})
  {
  }

  /** Dropping a session and any listing of it under one owner. */
  lemma DropRefines(db: Db, d: Db, now: int, final: int, id: Id, o: int)
    requires Orderly(db, now, final) && d == Cascade(db, id).(owners := SRem(db.owners, o, id))
    ensures Orderly(d, now, final) && View(d) == Expire(View(db), {id})
  {
    assert Whole(db, id);
    CascadeKeys(db, id);
    assert Whole(d, id) && SameElsewhere(db, d, id);
    OthersStayWhole(db, d, id);
    DropTimes(db, d, now, final, id, o);
    DropIndex(db, d, id, o);
    DropValues(db, d, id);
  }

  lemma DropValues(db: Db, d: Db, id: Id)
    requires d.sess == db.sess - {id} && d.attr == db.attr - {id} && d.sha == db.sha - {id}
    ensures Values(d.sess) == Values(db.sess) - {id} && Values(d.attr) == Values(db.attr) - {id} && Values(d.sha) == Values(db.sha) - {id}
  {
  }

  lemma DropTimes(db: Db, d: Db, now: int, final: int, id: Id, o: int)
    requires Timed(db, now, final) && Covered(db) && Extended(db, now, final)
    requires d.sess == db.sess - {id} && d.owners == SRem(db.owners, o, id)
    ensures Timed(d, now, final) && Covered(d) && Extended(d, now, final)
  {
  }

  lemma DeleteRefines(db: Db, now: int, final: int, id: Id)
    requires Orderly(db, now, final)
    ensures Orderly(RDelete(db, id), now, final) && View(RDelete(db, id)) == Delete(View(db), id)
  {
    ViewSound(db, now, final);
    DeleteIsExpire(View(db), id);
    DropRefines(db, RDelete(db, id), now, final, id, OwnerOf(db, id));
  }

  lemma DeleteByOwnerRefines(db: Db, now: int, final: int, o: int, id: Id)
    requires Orderly(db, now, final) && o > 0
    ensures var (d, code) := RDeleteByOwner(db, o, id);
            Orderly(d, now, final) && DeleteByOwner(View(db), o, id) == (View(d), code == 1)
  {
    var (d, code) := RDeleteByOwner(db, o, id);
    ViewSound(db, now, final);
    DeleteByOwnerIsExpire(View(db), o, id);
    if code == 1 {
      DropRefines(db, d, now, final, id, o);
    } else {
      PruneKeeps(db, d, now, final, o, id);
    }
  }

  /** Pruning a listing of a session that is bound to somebody else. */
  lemma PruneKeeps(db: Db, d: Db, now: int, final: int, o: int, id: Id)
    requires Orderly(db, now, final) && o > 0 && OwnerOf(db, id) != o && d == db.(owners := SRem(db.owners, o, id))
    ensures Orderly(d, now, final) && View(d) == View(db)
  {
    forall i ensures Whole(d, i) { assert Whole(db, i); }
    forall i | i in d.sess ensures CoveredBy(d.owners, i, d.sess[i]) {
      assert CoveredBy(db.owners, i, db.sess[i]);
      if db.sess[i].v.owner == o { assert i in db.owners[o].v - {id}; }
    }
    forall p ensures Bound(d, p) == Members(Index(db), p) {
      IndexMembers(db, p);
      assert Bound(d, p) == Bound(db, p);
    }
    SameIndex(d, Index(db));
  }

  // ---- the commit ---------------------------------------------------------------------

  /** A commit rewrites only its own session's rows, all to one deadline. */
  lemma CommitWhole(db: Db, d: Db, id: Id, c: Controls, at: int)
    requires Whole(db, id) && id in db.sess && c.oldKey in db.keys && db.keys[c.oldKey].v == id && (c.rotate ==> c.newKey !in db.keys)
    requires id in d.sess && d.sess == db.sess[id := d.sess[id]] && d.sess[id].deadline == Some(at)
    requires d.keys == CommittedKeys(db.keys, id, c, at) && d.rev == CommittedRev(db.rev, id, c, at)
    requires d.attr == CommittedHash(db.attr, id, c, at, false) && d.sha == CommittedHash(db.sha, id, c, at, true)
    ensures Whole(d, id) && SameElsewhere(db, d, id)
  {
    OneKey(db, id, c.oldKey);
    var key := if c.rotate then c.newKey else c.oldKey;
    assert MembersOf(db.rev, id) - {c.oldKey} + {c.newKey} == {c.newKey};
    SwappedKeys(db.keys, d.keys, id, c, at);
    RewrittenWhole(db, d, id, key, at);
  }

  lemma OneKey(db: Db, id: Id, key: Id)
    requires Whole(db, id) && key in db.keys && db.keys[key].v == id
    ensures id in db.rev && db.rev[id].v == {key} && forall k <- db.keys :: db.keys[k].v == id ==> k == key
  {
  }

  lemma SwappedKeys(t: map<Id, Row<Id>>, u: map<Id, Row<Id>>, id: Id, c: Controls, at: int)
    requires c.oldKey in t && t[c.oldKey].v == id && (c.rotate ==> c.newKey !in t)
    requires forall k <- t :: t[k].v == id ==> k == c.oldKey
    requires u == CommittedKeys(t, id, c, at)
    ensures forall k <- u :: if u[k].v == id then k == (if c.rotate then c.newKey else c.oldKey) else k in t && t[k] == u[k]
    ensures forall k <- t :: t[k].v != id ==> k in u && u[k] == t[k]
  {
  }

  lemma RewrittenWhole(db: Db, d: Db, id: Id, key: Id, at: int)
    requires id in d.sess && d.sess[id].deadline == Some(at) && d.sess == db.sess[id := d.sess[id]]
    requires key in d.keys && d.keys[key] == Row(id, Some(at))
    requires forall k <- d.keys :: if d.keys[k].v == id then k == key else k in db.keys && db.keys[k] == d.keys[k]
    requires forall k <- db.keys :: db.keys[k].v != id ==> k in d.keys && d.keys[k] == db.keys[k]
    requires d.rev == db.rev[id := Row({key}, Some(at))]
    requires d.attr == HashRow(db.attr, id, HashOf(d.attr, id), at) && d.sha == HashRow(db.sha, id, HashOf(d.sha, id), at)
    ensures Whole(d, id) && SameElsewhere(db, d, id)
  {
  }

  lemma RehomedBound(db: Db, d: Db, now: int, id: Id, to: int, ttl: int, o: int)
    requires id in db.sess && db.sess[id].v.owner != to
    requires d.sess.Keys == db.sess.Keys && d.sess[id].v.owner == to
    requires forall i <- db.sess :: i != id ==> d.sess[i].v.owner == db.sess[i].v.owner
    requires d.owners == Rehomed(db.owners, now, id, db.sess[id].v.owner, to, ttl)
    ensures Bound(d, o) == if o == to then Bound(db, o) + {id} else Bound(db, o) - {id}
  {
  }

  lemma RehomedIndex(db: Db, d: Db, now: int, final: int, id: Id, to: int, ttl: int)
    requires Covered(db) && Extended(db, now, final) && to > 0
    requires id in db.sess && db.sess[id].v.owner != to
    requires d.sess.Keys == db.sess.Keys && d.sess[id].v.owner == to
    requires forall i <- db.sess :: i != id ==> d.sess[i].v.owner == db.sess[i].v.owner
    requires d.owners == Rehomed(db.owners, now, id, db.sess[id].v.owner, to, ttl)
    ensures Index(d) == Moved(Index(db), id, db.sess[id].v.owner, to)
  {
    var from := db.sess[id].v.owner;
    var b := Moved(Index(db), id, from, to);
    ViewIndexed(db, now, final);
    forall o ensures Bound(d, o) == Members(b, o) {
      IndexMembers(db, o);
      RehomedBound(db, d, now, id, to, ttl, o);
      if o != to && o != from { assert id !in Bound(db, o); }
    }
    SameIndex(d, b);
  }

  /** Binding a session extends its owner's set past every session in it. */
  lemma RehomedCovers(db: Db, t: map<int, Row<set<Id>>>, now: int, final: int, id: Id, to: int)
    requires Covered(db) && Timed(db, now, final) && Extended(db, now, final) && to > 0 && final >= 1
    requires id in db.sess && db.sess[id].v.owner != to
    requires t == Rehomed(db.owners, now, id, db.sess[id].v.owner, to, final * 1000)
    ensures forall i <- db.sess :: i != id ==> CoveredBy(t, i, db.sess[i])
    ensures to in t && id in t[to].v && t[to].deadline == Some(now + final * 1000)
    ensures forall o <- t :: o > 0 && t[o].v != {} && t[o].deadline.Some? && t[o].deadline.value <= now + final * 1000
  {
    var from := db.sess[id].v.owner;
    forall i | i in db.sess && i != id ensures CoveredBy(t, i, db.sess[i]) {
      assert CoveredBy(db.owners, i, db.sess[i]) && TimedRow(db.sess[i], now, final);
      if db.sess[i].v.owner == from && from != 0 { assert i in db.owners[from].v - {id}; }
    }
    if from != 0 { assert CoveredBy(db.owners, id, db.sess[id]); }
  }

  lemma CommitTimes(db: Db, d: Db, now: int, final: int, id: Id, c: Controls, at: int)
    requires Timed(db, now, final) && Covered(db) && Extended(db, now, final) && id in db.sess
    requires now < at <= (db.sess[id].v.creation + final) * 1000 && (c.setOwner ==> c.owner > 0)
    requires d.sess == db.sess[id := CommittedRow(db.sess[id], c, at)]
    requires d.owners == CommittedOwners(db, now, id, db.sess[id].v.owner, c, final * 1000)
    ensures Timed(d, now, final) && Covered(d) && Extended(d, now, final)
  {
    assert TimedRow(db.sess[id], now, final) && CoveredBy(db.owners, id, db.sess[id]);
    if c.setOwner && db.sess[id].v.owner != c.owner {
      RehomedCovers(db, d.owners, now, final, id, c.owner);
    }
    TimesFrom(db, d, now, final, id);
  }

  lemma TimesFrom(db: Db, d: Db, now: int, final: int, id: Id)
    requires Timed(db, now, final) && id in d.sess && d.sess == db.sess[id := d.sess[id]]
    requires TimedRow(d.sess[id], now, final) && CoveredBy(d.owners, id, d.sess[id])
    requires forall i <- db.sess :: i != id ==> CoveredBy(d.owners, i, db.sess[i])
    ensures Timed(d, now, final) && Covered(d)
  {
  }

  /** One of the two hashes, rewritten or left as it is because there is nothing to write. */
  lemma AppliedHash(t: map<Id, Row<Hash>>, u: map<Id, Row<Hash>>, id: Id, c: Controls, at: int, sha: bool)
    requires u == CommittedHash(t, id, c, at, sha) || (u == t && c.cookies == [])
    requires id in t ==> t[id].v != map[]
    ensures Values(u) == WithRow(Values(t), id, Batch(RowOf(Values(t), id), c.cookies, sha))
  {
  }

  lemma AppliedValues(db: Db, now: int, id: Id, c: Controls, left: int, ownerTtl: int)
    requires Whole(db, id) && id in db.sess && c.oldKey in db.keys && db.keys[c.oldKey].v == id
    requires c.rotate ==> c.newKey !in db.keys
    ensures var d := Applied(db, now, id, c, left, ownerTtl);
            && Values(d.sess) == Values(db.sess)[id := ControlledSession(db.sess[id].v, c)]
            && Values(d.keys) == (if c.rotate then (Values(db.keys) - {c.oldKey})[c.newKey := id] else Values(db.keys))
            && Values(d.attr) == WithRow(Values(db.attr), id, Batch(RowOf(Values(db.attr), id), c.cookies, false))
            && Values(d.sha) == WithRow(Values(db.sha), id, Batch(RowOf(Values(db.sha), id), c.cookies, true))
  {
    var d := Applied(db, now, id, c, left, ownerTtl);
    PutValue(db.sess, d.sess, id);
    AppliedHash(db.attr, d.attr, id, c, now + left, false);
    AppliedHash(db.sha, d.sha, id, c, now + left, true);
    if Advances(db.sess[id].v, c) { SwappedValues(db.keys, d.keys, id, c, now + left); }
  }

  lemma SwappedValues(t: map<Id, Row<Id>>, u: map<Id, Row<Id>>, id: Id, c: Controls, at: int)
    requires c.oldKey in t && t[c.oldKey].v == id
    requires u == CommittedKeys(t, id, c, at)
    ensures Values(u) == if c.rotate then (Values(t) - {c.oldKey})[c.newKey := id] else Values(t)
  {
  }

  /** The commit script: it succeeds exactly as the plain commit does, or leaves the
      keyspace as it is because the key was lost, or the session is gone or out of time. */
  lemma ApplyRefines(db: Db, now: int, final: int, id: Id, c: Controls, ttl: int)
    requires Orderly(db, now, final) && (c.setOwner ==> c.owner > 0)
    ensures var (d, code) := RApply(db, now, id, c, ttl, final * 1000);
            && Orderly(d, now, final)
            && (if code == 1 then Apply(View(db), id, c) == (View(d), Ok)
                else d == db && (code == -1 ==> Apply(View(db), id, c).1 == Conflict)
                             && (code == 0 ==> id !in db.sess || ttl <= 0 || Granted(db.sess[id].v, c.lastAccess, ttl, now) <= 0))
  {
    var (d, code) := RApply(db, now, id, c, ttl, final * 1000);
    if code == 1 {
      var left := Granted(db.sess[id].v, c.lastAccess, ttl, now);
      assert TimedRow(db.sess[id], now, final);
      AppliedOrderly(db, now, final, id, c, left);
      assert Whole(db, id);
      AppliedView(db, now, final, id, c, left);
    }
  }

  lemma AppliedView(db: Db, now: int, final: int, id: Id, c: Controls, left: int)
    requires Whole(db, id) && Covered(db) && Extended(db, now, final)
    requires id in db.sess && c.oldKey in db.keys && db.keys[c.oldKey].v == id
    requires (c.rotate ==> c.newKey !in db.keys) && (c.setOwner ==> c.owner > 0)
    ensures Apply(View(db), id, c) == (View(Applied(db, now, id, c, left, final * 1000)), Ok)
  {
    var d := Applied(db, now, id, c, left, final * 1000);
    AppliedValues(db, now, id, c, left, final * 1000);
    AppliedIndex(db, d, now, final, id, c, now + left);
    CommittedStore(View(db), View(d), id, c);
  }

  lemma CommittedStore(s: Store, t: Store, id: Id, c: Controls)
    requires id in s.sessions && Maps(s, c.oldKey, id) && (c.rotate ==> c.newKey !in s.keys)
    requires t.sessions == s.sessions[id := ControlledSession(s.sessions[id], c)]
    requires t.keys == if c.rotate then (s.keys - {c.oldKey})[c.newKey := id] else s.keys
    requires t.cookies == WithRow(s.cookies, id, Batch(RowOf(s.cookies, id), c.cookies, false))
    requires t.shas == WithRow(s.shas, id, Batch(RowOf(s.shas, id), c.cookies, true))
    requires t.owners == if c.setOwner && c.owner != s.sessions[id].owner then Moved(s.owners, id, s.sessions[id].owner, c.owner) else s.owners
    ensures Apply(s, id, c) == (t, Ok)
  {
  }

  lemma AppliedOrderly(db: Db, now: int, final: int, id: Id, c: Controls, left: int)
    requires Orderly(db, now, final) && id in db.sess && c.oldKey in db.keys && db.keys[c.oldKey].v == id
    requires (c.rotate ==> c.newKey !in db.keys) && (c.setOwner ==> c.owner > 0)
    requires 0 < left && now + left <= (db.sess[id].v.creation + final) * 1000
    ensures Orderly(Applied(db, now, id, c, left, final * 1000), now, final)
  {
    var d := Applied(db, now, id, c, left, final * 1000);
    assert Whole(db, id);
    if Advances(db.sess[id].v, c) {
      CommitWhole(db, d, id, c, now + left);
    } else {
      assert Whole(d, id) && SameElsewhere(db, d, id);
    }
    OthersStayWhole(db, d, id);
    CommitTimes(db, d, now, final, id, c, now + left);
  }

  lemma AppliedIndex(db: Db, d: Db, now: int, final: int, id: Id, c: Controls, at: int)
    requires Covered(db) && Extended(db, now, final) && id in db.sess && (c.setOwner ==> c.owner > 0)
    requires d.sess == db.sess[id := CommittedRow(db.sess[id], c, at)]
    requires d.owners == CommittedOwners(db, now, id, db.sess[id].v.owner, c, final * 1000)
    ensures Index(d) == if c.setOwner && c.owner != db.sess[id].v.owner
                        then Moved(Index(db), id, db.sess[id].v.owner, c.owner) else Index(db)
  {
    if c.setOwner && c.owner != db.sess[id].v.owner {
      RehomedIndex(db, d, now, final, id, c.owner, final * 1000);
    } else {
      SameSessionsIndex(db, d);
    }
  }
}
