/** The Redis keyspace refines the plain store. With the invariants the manager's
    calls keep, each script changes the represented store exactly as the plain
    operation does, or rejects a late call without effect; and what expiry takes
    away is always a set of whole sessions. */
module RedisRefinement {
  import opened Stores
  import opened RedisStore

  // ---- the represented store ----------------------------------------------------

  /** Listed members that are live and bound: what the owner index says about sessions. */
  ghost function Bound(db: Db, o: int): set<Id> {
    set id | id in MembersOf(db.owners, o) && id in db.sess && db.sess[id].v.owner == o
  }

  ghost function Values<K, T>(t: map<K, Row<T>>): map<K, T> { map k | k in t :: t[k].v }

  ghost function Index(db: Db): map<int, set<Id>> { map o | o in db.owners && Bound(db, o) != {} :: Bound(db, o) }

  ghost function View(db: Db): Store {
    Store(Values(db.sess), Values(db.keys), Values(db.attr), Values(db.sha), Index(db))
  }

  lemma IndexMembers(db: Db, o: int)
    ensures Members(Index(db), o) == Bound(db, o)
  {
  }

  /** The owner part of the view is fixed by its members. */
  lemma SameIndex(db: Db, b: map<int, set<Id>>)
    requires forall o <- b :: b[o] != {}
    requires forall o :: Bound(db, o) == Members(b, o)
    ensures Index(db) == b
  {
    forall o ensures (o in Index(db) <==> o in b) && (o in b ==> Index(db)[o] == b[o]) {
      IndexMembers(db, o);
      assert Bound(db, o) == Members(b, o);
    }
  }

  // ---- invariants ------------------------------------------------------------------

  /** Every session has a deadline, no later than a full lifetime from now; it was
      created on this clock and all sessions share one final timeout. */
  ghost predicate Timed(db: Db, now: int, final: int) {
    forall id <- db.sess :: TimedRow(db.sess[id], now, final)
  }

  predicate TimedRow(row: Row<Session>, now: int, final: int) {
    && row.deadline.Some? && row.deadline.value <= now + final * 1000
    && row.v.inactive >= 1 && row.v.final == final >= 1 && row.v.creation * 1000 <= now && row.v.owner >= 0
  }

  /** The rows of one session: its reverse set is exactly the keys that map to it, at
      most one, and the rows there are share the session's deadline. */
  ghost predicate Whole(db: Db, id: Id) {
    && (forall k <- db.keys :: db.keys[k].v == id ==>
          id in db.sess && db.keys[k].deadline == db.sess[id].deadline && id in db.rev && k in db.rev[id].v)
    && (id in db.rev ==>
          && id in db.sess && db.rev[id].deadline == db.sess[id].deadline && db.rev[id].v != {}
          && (forall k <- db.rev[id].v :: k in db.keys && db.keys[k].v == id)
          && (forall k <- db.rev[id].v, l <- db.rev[id].v :: k == l))
    && (id in db.attr ==> id in db.sess && db.attr[id].deadline == db.sess[id].deadline && db.attr[id].v != map[])
    && (id in db.sha ==> id in db.sess && db.sha[id].deadline == db.sess[id].deadline && db.sha[id].v != map[])
  }

  /** The owner set lists the session and outlives it, and its final limit too. */
  predicate CoveredBy(t: map<int, Row<set<Id>>>, id: Id, row: Row<Session>) {
    row.v.owner != 0 ==>
      && row.v.owner in t && id in t[row.v.owner].v && t[row.v.owner].deadline.Some?
      && (row.deadline.Some? ==> row.deadline.value <= t[row.v.owner].deadline.value)
      && (row.v.creation + row.v.final) * 1000 <= t[row.v.owner].deadline.value
  }

  ghost predicate Covered(db: Db) {
    forall id <- db.sess :: CoveredBy(db.owners, id, db.sess[id])
  }

  /** Owner sets belong to positive owners, are not empty, and were last extended by one
      final timeout at some earlier time. */
  ghost predicate Extended(db: Db, now: int, final: int) {
    forall o <- db.owners ::
      o > 0 && db.owners[o].v != {} && db.owners[o].deadline.Some? && db.owners[o].deadline.value <= now + final * 1000
  }

  ghost predicate Orderly(db: Db, now: int, final: int) {
    (forall id :: Whole(db, id)) && Timed(db, now, final) && Covered(db) && Extended(db, now, final)
  }

  /** Two keyspaces agree on every session but one. */
  ghost predicate SameElsewhere(db: Db, d: Db, id: Id) {
    && d.sess - {id} == db.sess - {id} && d.rev - {id} == db.rev - {id}
    && d.attr - {id} == db.attr - {id} && d.sha - {id} == db.sha - {id}
    && (forall k <- d.keys :: d.keys[k].v != id ==> k in db.keys && db.keys[k] == d.keys[k])
    && (forall k <- db.keys :: db.keys[k].v != id ==> k in d.keys && db.keys[k] == d.keys[k])
  }

  lemma OthersStayWhole(db: Db, d: Db, id: Id)
    requires SameElsewhere(db, d, id) && (forall i :: Whole(db, i)) && Whole(d, id)
    ensures forall i :: Whole(d, i)
  {
    forall i ensures Whole(d, i) {
      if i != id { OtherWhole(db, d, id, i); }
    }
  }

  lemma OtherWhole(db: Db, d: Db, id: Id, i: Id)
    requires SameElsewhere(db, d, id) && Whole(db, i) && i != id
    ensures Whole(d, i)
  {
    SameRow(db.sess, d.sess, id, i);
    SameRow(db.rev, d.rev, id, i);
    SameRow(db.attr, d.attr, id, i);
    SameRow(db.sha, d.sha, id, i);
  }

  lemma SameRow<T>(a: map<Id, Row<T>>, b: map<Id, Row<T>>, id: Id, i: Id)
    requires a - {id} == b - {id} && i != id
    ensures (i in a <==> i in b) && (i in a ==> a[i] == b[i])
  {
    assert i in a <==> i in a - {id};
    assert i in b <==> i in b - {id};
  }

  lemma OrderlyIsFull(db: Db, now: int, final: int)
    requires Orderly(db, now, final)
    ensures Full(db)
  {
    forall id ensures (id in db.rev ==> db.rev[id].v != {}) && (id in db.attr ==> db.attr[id].v != map[]) && (id in db.sha ==> db.sha[id].v != map[]) {
      assert Whole(db, id);
    }
  }

  lemma ViewRooted(db: Db)
    requires forall id :: Whole(db, id)
    ensures Rooted(View(db))
  {
    var s := View(db);
    forall k | k in s.keys ensures s.keys[k] in s.sessions { assert Whole(db, s.keys[k]); }
    forall id | id in s.cookies ensures id in s.sessions && s.cookies[id] != map[] { assert Whole(db, id); }
    forall id | id in s.shas ensures id in s.sessions && s.shas[id] != map[] { assert Whole(db, id); }
    forall k, l | k in s.keys && l in s.keys && s.keys[k] == s.keys[l] ensures k == l {
      assert Whole(db, s.keys[k]);
    }
  }

  lemma ViewIndexed(db: Db, now: int, final: int)
    requires Covered(db) && Extended(db, now, final)
    ensures Indexed(View(db))
  {
  }

  lemma ViewSound(db: Db, now: int, final: int)
    requires Orderly(db, now, final)
    ensures Sound(View(db))
  {
    ViewRooted(db);
    ViewIndexed(db, now, final);
  }

  // ---- expiry -----------------------------------------------------------------------

  /** The sessions that are over by `now`. */
  ghost function Over(db: Db, now: int): set<Id> {
    set id | id in db.sess && !Alive(db.sess[id], now)
  }

  /** Time passing keeps the invariant ... */
  lemma EvictOk(db: Db, before: int, now: int, final: int)
    requires Orderly(db, before, final) && before <= now
    ensures Orderly(Evict(db, now), now, final)
  {
    var e := Evict(db, now);
    forall id ensures Whole(e, id) { EvictWhole(db, now, id); }
    assert Timed(e, now, final) by { assert forall id <- e.sess :: TimedRow(db.sess[id], before, final); }
    assert Covered(e) by { assert forall id <- e.sess :: CoveredBy(db.owners, id, db.sess[id]) && TimedRow(db.sess[id], before, final); }
  }

  lemma EvictWhole(db: Db, now: int, id: Id)
    requires Whole(db, id)
    ensures Whole(Evict(db, now), id)
  {
  }

  /** ... and what expires is whole sessions, with everything that belongs to them
      and nothing else. */
  lemma EvictIsExpire(db: Db, before: int, now: int, final: int)
    requires Orderly(db, before, final)
    ensures View(Evict(db, now)) == Expire(View(db), Over(db, now))
  {
    var e, gone := Evict(db, now), Over(db, now);
    forall id | id in db.attr || id in db.sha ensures Whole(db, id) {}
    RowsOver(db.sess, db.sess, now, gone);
    RowsOver(db.sess, db.attr, now, gone);
    RowsOver(db.sess, db.sha, now, gone);
    assert Values(e.keys) == KeysOutside(Values(db.keys), gone) by { KeysOver(db, now); }
    EvictIndex(db, before, now, final);
  }

  lemma RowsOver<T>(sess: map<Id, Row<Session>>, t: map<Id, Row<T>>, now: int, gone: set<Id>)
    requires forall id <- t :: id in sess && t[id].deadline == sess[id].deadline
    requires gone == set id | id in sess && !Alive(sess[id], now)
    ensures Values(Living(t, now)) == Values(t) - gone
  {
  }

  lemma KeysOver(db: Db, now: int)
    requires forall id :: Whole(db, id)
    ensures Values(Living(db.keys, now)) == KeysOutside(Values(db.keys), Over(db, now))
  {
    forall k | k in db.keys ensures db.keys[k].v in db.sess && db.keys[k].deadline == db.sess[db.keys[k].v].deadline {
      assert Whole(db, db.keys[k].v);
    }
  }

  lemma EvictIndex(db: Db, before: int, now: int, final: int)
    requires Timed(db, before, final) && Covered(db) && Extended(db, before, final)
    ensures Index(Evict(db, now)) == Expire(View(db), Over(db, now)).owners
  {
    var b := Expire(View(db), Over(db, now)).owners;
    forall o ensures Bound(Evict(db, now), o) == Members(b, o) {
      BoundAfterEvict(db, before, now, final, o);
      IndexMembers(db, o);
    }
    SameIndex(Evict(db, now), b);
  }

  lemma BoundAfterEvict(db: Db, before: int, now: int, final: int, o: int)
    requires Timed(db, before, final) && Covered(db) && Extended(db, before, final)
    ensures Bound(Evict(db, now), o) == Bound(db, o) - Over(db, now)
  {
  }
}
