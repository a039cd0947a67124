/** The Redis store: typed rows with deadlines, changed by scripts that run
    atomically. `Db` is the keyspace as a value; the functions give each script's
    meaning and the class runs the scripts command by command.

    Times are milliseconds on the server's clock. A row is gone once the clock is
    past its deadline, so at the deadline itself it still exists with zero
    milliseconds to live. */
module RedisStore {
  import opened Stores

  datatype Row<T> = Row(v: T, deadline: Option<int>)

  type Hash = map<string, string>

  datatype Db = Db(
    sess: map<Id, Row<Session>>, keys: map<Id, Row<Id>>, rev: map<Id, Row<set<Id>>>,
    attr: map<Id, Row<Hash>>, sha: map<Id, Row<Hash>>, owners: map<int, Row<set<Id>>>)

  const NOTHING := Db(map[], map[], map[], map[], map[], map[])

  predicate Alive<T>(row: Row<T>, now: int) { row.deadline.Some? ==> now <= row.deadline.value }

  function Living<K, T>(t: map<K, Row<T>>, now: int): map<K, Row<T>> {
    map k | k in t && Alive(t[k], now) :: t[k]
  }

  /** The keyspace as any command at time `now` sees it. */
  function Evict(db: Db, now: int): Db {
    Db(Living(db.sess, now), Living(db.keys, now), Living(db.rev, now),
       Living(db.attr, now), Living(db.sha, now), Living(db.owners, now))
  }

  // ---- commands --------------------------------------------------------------

  function PExpire<K, T>(t: map<K, Row<T>>, k: K, at: int): map<K, Row<T>> {
    if k in t then t[k := t[k].(deadline := Some(at))] else t
  }

  function SAdd<K>(t: map<K, Row<set<Id>>>, k: K, x: Id): map<K, Row<set<Id>>> {
    if k in t then t[k := t[k].(v := t[k].v + {x})] else t[k := Row({x}, None)]
  }

  /** Removing the last member removes the row, deadline and all. */
  function SRem<K>(t: map<K, Row<set<Id>>>, k: K, x: Id): map<K, Row<set<Id>>> {
    if k !in t then t
    else if t[k].v - {x} == {} then t - {k} else t[k := t[k].(v := t[k].v - {x})]
  }

  function HSet(t: map<Id, Row<Hash>>, k: Id, n: string, v: string): map<Id, Row<Hash>> {
    if k in t then t[k := t[k].(v := t[k].v[n := v])] else t[k := Row(map[n := v], None)]
  }

  function HDel(t: map<Id, Row<Hash>>, k: Id, n: string): map<Id, Row<Hash>> {
    if k !in t then t
    else if t[k].v - {n} == map[] then t - {k} else t[k := t[k].(v := t[k].v - {n})]
  }

  // ---- what the scripts mean -----------------------------------------------------

  function MembersOf<K>(t: map<K, Row<set<Id>>>, k: K): set<Id> { if k in t then t[k].v else {} }

  function HashOf(t: map<Id, Row<Hash>>, k: Id): Hash { if k in t then t[k].v else map[] }

  function SetRow<K>(t: map<K, Row<set<Id>>>, k: K, v: set<Id>, at: int): map<K, Row<set<Id>>> {
    if v == {} then t - {k} else t[k := Row(v, Some(at))]
  }

  function HashRow(t: map<Id, Row<Hash>>, k: Id, v: Hash, at: int): map<Id, Row<Hash>> {
    if v == map[] then t - {k} else t[k := Row(v, Some(at))]
  }

  function Least(a: int, b: int): int { if b < a then b else a }

  /** Milliseconds a refresh may grant: what was asked for, capped by the inactivity
      limit counted from the newest access and by the final limit. */
  function Granted(x: Session, access: int, ttl: int, now: int): int {
    var idle := (Max(x.lastAccess, access) + x.inactive) * 1000 - now;
    var last := (x.creation + x.final) * 1000 - now;
    var capped := if x.inactive > 0 then Least(ttl, idle) else ttl;
    if x.final > 0 then Least(capped, last) else capped
  }

  function RPutSession(db: Db, now: int, id: Id, x: Session, ttl: int): Db {
    db.(sess := db.sess[id := Row(x, if ttl > 0 then Some(now + ttl) else if id in db.sess then db.sess[id].deadline else None)])
  }

  function RPutKey(db: Db, now: int, key: Id, id: Id): (r: (Db, int)) {
    if id !in db.sess || db.sess[id].deadline == Some(now) then (db, 0)
    else
      var until := db.sess[id].deadline;
      var rev := SAdd(db.rev, id, key);
      (db.(keys := db.keys[key := Row(id, until)],
           rev := if until.Some? then PExpire(rev, id, until.value) else rev), 1)
  }

  function RTouch(db: Db, now: int, id: Id, key: Id, access: int, rotation: int, ttl: int): (r: (Db, int)) {
    if id !in db.sess then (db, 0)
    else if key !in db.keys || db.keys[key].v != id then (db, -1)
    else
      var x := db.sess[id].v;
      var left := Granted(x, access, ttl, now);
      if left <= 0 then (db, 0)
      else if access <= x.lastAccess then
        (db.(sess := db.sess[id := db.sess[id].(v := TouchedSession(x, access, rotation))]), 1)
      else
        (Db(db.sess[id := Row(TouchedSession(x, access, rotation), Some(now + left))],
            PExpire(db.keys, key, now + left), PExpire(db.rev, id, now + left),
            PExpire(db.attr, id, now + left), PExpire(db.sha, id, now + left), db.owners), 1)
  }

  /** The owner index after a session moves to owner `to`. */
  function Rehomed(t: map<int, Row<set<Id>>>, now: int, id: Id, from: int, to: int, ttl: int): map<int, Row<set<Id>>> {
    var added := SAdd(t, to, id);
    var kept := if ttl > 0 then PExpire(added, to, now + ttl) else added;
    if from != 0 then SRem(kept, from, id) else kept
  }

  predicate Advances(x: Session, c: Controls) {
    c.rotate || c.cookies != [] || c.lastAccess > x.lastAccess || c.lastRotation > x.lastRotation
  }

  function CommittedRow(row: Row<Session>, c: Controls, at: int): Row<Session> {
    Row(ControlledSession(row.v, c), if Advances(row.v, c) then Some(at) else row.deadline)
  }

  function CommittedOwners(db: Db, now: int, id: Id, from: int, c: Controls, ttl: int): map<int, Row<set<Id>>> {
    if c.setOwner && from != c.owner then Rehomed(db.owners, now, id, from, c.owner, ttl) else db.owners
  }

  function CommittedKeys(t: map<Id, Row<Id>>, id: Id, c: Controls, at: int): map<Id, Row<Id>> {
    if c.rotate then (t - {c.oldKey})[c.newKey := Row(id, Some(at))] else t[c.oldKey := Row(id, Some(at))]
  }

  function CommittedRev(t: map<Id, Row<set<Id>>>, id: Id, c: Controls, at: int): map<Id, Row<set<Id>>> {
    SetRow(t, id, if c.rotate then MembersOf(t, id) - {c.oldKey} + {c.newKey} else MembersOf(t, id), at)
  }

  function CommittedHash(t: map<Id, Row<Hash>>, id: Id, c: Controls, at: int, sha: bool): map<Id, Row<Hash>> {
    HashRow(t, id, Batch(HashOf(t, id), c.cookies, sha), at)
  }

  function Applied(db: Db, now: int, id: Id, c: Controls, left: int, ownerTtl: int): Db
    requires id in db.sess
  {
    var row := db.sess[id];
    var at := now + left;
    var d := db.(sess := db.sess[id := CommittedRow(row, c, at)], owners := CommittedOwners(db, now, id, row.v.owner, c, ownerTtl));
    if !Advances(row.v, c) then d
    else d.(keys := CommittedKeys(db.keys, id, c, at), rev := CommittedRev(db.rev, id, c, at),
            attr := CommittedHash(db.attr, id, c, at, false), sha := CommittedHash(db.sha, id, c, at, true))
  }

  function RApply(db: Db, now: int, id: Id, c: Controls, ttl: int, ownerTtl: int): (r: (Db, int)) {
    if id !in db.sess || ttl <= 0 then (db, 0)
    else if c.oldKey !in db.keys || db.keys[c.oldKey].v != id then (db, -1)
    else if c.rotate && (c.oldKey == c.newKey || c.newKey in db.keys) then (db, -1)
    else
      var left := Granted(db.sess[id].v, c.lastAccess, ttl, now);
      if left <= 0 then (db, 0) else (Applied(db, now, id, c, left, ownerTtl), 1)
  }

  function Cascade(db: Db, id: Id): Db {
    db.(sess := db.sess - {id}, keys := db.keys - MembersOf(db.rev, id),
        rev := db.rev - {id}, attr := db.attr - {id}, sha := db.sha - {id})
  }

  function OwnerOf(db: Db, id: Id): int { if id in db.sess then db.sess[id].v.owner else 0 }

  function RDelete(db: Db, id: Id): Db {
    var owner := OwnerOf(db, id);
    Cascade(db, id).(owners := if owner != 0 then SRem(db.owners, owner, id) else db.owners)
  }

  function RDeleteByOwner(db: Db, owner: int, id: Id): (r: (Db, int)) {
    if OwnerOf(db, id) != owner then (db.(owners := SRem(db.owners, owner, id)), 0)
    else (Cascade(db, id).(owners := SRem(db.owners, owner, id)), 1)
  }

  /** Redis keeps no empty hash or set. */
  ghost predicate Full(db: Db) {
    && (forall k <- db.rev :: db.rev[k].v != {}) && (forall k <- db.owners :: db.owners[k].v != {})
    && (forall k <- db.attr :: db.attr[k].v != map[]) && (forall k <- db.sha :: db.sha[k].v != map[])
  }

  /** One mutation of a cookie hash. */
  function Rewritten(t: map<Id, Row<Hash>>, id: Id, m: CookieMutation, sha: bool): map<Id, Row<Hash>> {
    if m.delete then HDel(t, id, m.name) else HSet(t, id, m.name, Written(m, sha))
  }

  lemma RewrittenHash(t: map<Id, Row<Hash>>, id: Id, m: CookieMutation, sha: bool)
    requires id in t ==> t[id].v != map[]
    ensures HashOf(Rewritten(t, id, m, sha), id) == Mutated(HashOf(t, id), m, sha)
    ensures id in Rewritten(t, id, m, sha) ==> Rewritten(t, id, m, sha)[id].v != map[]
    ensures Rewritten(t, id, m, sha) - {id} == t - {id}
  {
    if !m.delete { assert m.name in Rewritten(t, id, m, sha)[id].v; }
  }

  /** Refreshing a changed hash leaves no trace of the deadline it had on the way. */
  lemma RefreshedHash(before: map<Id, Row<Hash>>, after: map<Id, Row<Hash>>, id: Id, at: int)
    requires after - {id} == before - {id} && (id in after ==> after[id].v != map[])
    ensures PExpire(after, id, at) == HashRow(before, id, HashOf(after, id), at)
  {
    forall k | k != id ensures (k in after <==> k in before) && (k in after ==> after[k] == before[k]) {
      assert k in after <==> k in after - {id};
      assert k in before <==> k in before - {id};
    }
    assert PExpire(after, id, at).Keys == HashRow(before, id, HashOf(after, id), at).Keys;
  }

  // ---- the scripts -----------------------------------------------------------------

  class Redis {
    var sess: map<Id, Row<Session>>
    var keys: map<Id, Row<Id>>
    var rev: map<Id, Row<set<Id>>>
    var attr: map<Id, Row<Hash>>
    var sha: map<Id, Row<Hash>>
    var owners: map<int, Row<set<Id>>>

    ghost function Space(): Db
      reads this
    {
      Db(sess, keys, rev, attr, sha, owners)
    }

    constructor ()
      ensures Space() == NOTHING
    {
      sess, keys, rev, attr, sha, owners := map[], map[], map[], map[], map[], map[];
    }

    /** Every script starts by losing the rows whose time is up. */
    method Awake(now: int)
      modifies this
      ensures Space() == Evict(old(Space()), now)
    {
      sess, keys, rev := Living(sess, now), Living(keys, now), Living(rev, now);
      attr, sha, owners := Living(attr, now), Living(sha, now), Living(owners, now);
    }

    method PutSession(now: int, id: Id, x: Session, ttl: int)
      modifies this
      ensures Space() == RPutSession(Evict(old(Space()), now), now, id, x, ttl)
    {
      Awake(now);
      sess := sess[id := Row(x, if id in sess then sess[id].deadline else None)];
      if ttl > 0 { sess := PExpire(sess, id, now + ttl); }
    }

    method TouchSession(now: int, id: Id, key: Id, access: int, rotation: int, ttl: int) returns (code: int)
      modifies this
      ensures (Space(), code) == RTouch(Evict(old(Space()), now), now, id, key, access, rotation, ttl)
    {
      Awake(now);
      if id !in sess { return 0; }
      if key !in keys || keys[key].v != id { return -1; }
      ghost var before := sess;
      var currentAccess := sess[id].v.lastAccess;
      var left := GrantedTtl(sess[id].v, access, ttl, now);
      if left <= 0 { return 0; }
      if access > currentAccess {
        sess := sess[id := sess[id].(v := sess[id].v.(lastAccess := access))];
        Refresh(id, key, now + left);
      }
      if sess[id].v.lastRotation == 0 {
        sess := sess[id := sess[id].(v := sess[id].v.(lastRotation := rotation))];
      }
      assert sess == before[id := sess[id]];
      return 1;
    }

    static method GrantedTtl(x: Session, access: int, ttl: int, now: int) returns (left: int)
      ensures left == Granted(x, access, ttl, now)
    {
      var effective := if x.lastAccess < access then access else x.lastAccess;
      left := ttl;
      var inactiveMs := x.inactive * 1000;
      var finalMs := (x.creation + x.final) * 1000 - now;
      var inactiveDeadline := effective * 1000 + inactiveMs - now;
      if inactiveMs > 0 && inactiveDeadline < left { left := inactiveDeadline; }
      if x.final > 0 && finalMs < left { left := finalMs; }
    }

    method MoveOwner(now: int, id: Id, from: int, to: int, ttl: int)
      modifies this`owners
      ensures owners == Rehomed(old(owners), now, id, from, to, ttl)
    {
      owners := SAdd(owners, to, id);
      if ttl > 0 { owners := PExpire(owners, to, now + ttl); }
      if from != 0 { owners := SRem(owners, from, id); }
    }

    /** The cookie loop: a hash emptied on the way loses its deadline, which the
        refresh at the end of the script puts back. */
    method WriteCookies(id: Id, muts: seq<CookieMutation>)
      requires id in attr ==> attr[id].v != map[]
      requires id in sha ==> sha[id].v != map[]
      modifies this`attr, this`sha
      ensures HashOf(attr, id) == Batch(old(HashOf(attr, id)), muts, false) && HashOf(sha, id) == Batch(old(HashOf(sha, id)), muts, true)
      ensures attr - {id} == old(attr) - {id} && sha - {id} == old(sha) - {id}
      ensures (id in attr ==> attr[id].v != map[]) && (id in sha ==> sha[id].v != map[])
      ensures muts == [] ==> attr == old(attr) && sha == old(sha)
    {
      for i := 0 to |muts|
        invariant HashOf(attr, id) == Batch(old(HashOf(attr, id)), muts[..i], false)
        invariant HashOf(sha, id) == Batch(old(HashOf(sha, id)), muts[..i], true)
        invariant attr - {id} == old(attr) - {id} && sha - {id} == old(sha) - {id}
        invariant (id in attr ==> attr[id].v != map[]) && (id in sha ==> sha[id].v != map[])
        invariant i == 0 ==> attr == old(attr) && sha == old(sha)
      {
        var m := muts[i];
        assert muts[..i + 1][..i] == muts[..i] && muts[..i + 1][i] == m;
        RewrittenHash(attr, id, m, false);
        RewrittenHash(sha, id, m, true);
        if m.delete {
          attr, sha := HDel(attr, id, m.name), HDel(sha, id, m.name);
        } else {
          attr, sha := HSet(attr, id, m.name, m.value), HSet(sha, id, m.name, m.sha);
        }
      }
      assert muts[..|muts|] == muts;
    }

    /** The key swap: setting the new key, deleting the old one, and moving the reverse
        set, which a one-key session loses and regains on the way. */
    method SwapKey(now: int, id: Id, oldKey: Id, newKey: Id, left: int)
      requires oldKey != newKey
      modifies this`keys, this`rev
      ensures keys == (old(keys) - {oldKey})[newKey := Row(id, Some(now + left))]
      ensures rev - {id} == old(rev) - {id} && id in rev && rev[id].v == old(MembersOf(rev, id)) - {oldKey} + {newKey}
    {
      keys := keys[newKey := Row(id, Some(now + left))];
      keys := keys - {oldKey};
      rev := SRem(rev, id, oldKey);
      rev := SAdd(rev, id, newKey);
    }

    /** The last loop of a commit that advanced: one deadline for every row of the session. */
    method Refresh(id: Id, key: Id, at: int)
      modifies this
      ensures sess == PExpire(old(sess), id, at) && keys == PExpire(old(keys), key, at) && rev == PExpire(old(rev), id, at)
      ensures attr == PExpire(old(attr), id, at) && sha == PExpire(old(sha), id, at) && owners == old(owners)
    {
      sess, keys := PExpire(sess, id, at), PExpire(keys, key, at);
      attr, sha, rev := PExpire(attr, id, at), PExpire(sha, id, at), PExpire(rev, id, at);
    }

    /** The fields a commit sets, with the owner index, and whether the commit advances the session. */
    method SetFields(now: int, id: Id, c: Controls, ownerTtl: int) returns (advanced: bool)
      requires id in sess
      modifies this`sess, this`owners
      ensures sess == old(sess)[id := old(sess)[id].(v := ControlledSession(old(sess)[id].v, c))]
      ensures owners == if c.setOwner && old(sess)[id].v.owner != c.owner
                        then Rehomed(old(owners), now, id, old(sess)[id].v.owner, c.owner, ownerTtl) else old(owners)
      ensures advanced == Advances(old(sess)[id].v, c)
    {
      var x := sess[id].v;
      if c.setOwner && x.owner != c.owner {
        MoveOwner(now, id, x.owner, c.owner, ownerTtl);
        x := x.(owner := c.owner);
      }
      if c.setLabels { x := x.(labels := c.labels); }
      advanced := c.rotate || |c.cookies| > 0;
      if c.lastAccess > x.lastAccess {
        x := x.(lastAccess := c.lastAccess);
        advanced := true;
      }
      if c.lastRotation > x.lastRotation {
        x := x.(lastRotation := c.lastRotation);
        advanced := true;
      }
      sess := sess[id := sess[id].(v := x)];
    }

    method ApplySessionControls(now: int, id: Id, c: Controls, ttl: int, ownerTtl: int) returns (code: int)
      requires Full(Space())
      modifies this
      ensures (Space(), code) == RApply(Evict(old(Space()), now), now, id, c, ttl, ownerTtl)
    {
      Awake(now);
      if id !in sess { return 0; }
      if ttl <= 0 { return 0; }
      if c.oldKey !in keys || keys[c.oldKey].v != id { return -1; }
      if c.rotate {
        if c.oldKey == c.newKey { return -1; }
        if c.newKey in keys { return -1; }
      }
      var left := GrantedTtl(sess[id].v, c.lastAccess, ttl, now);
      if left <= 0 { return 0; }
      Change(now, id, c, left, ownerTtl);
      return 1;
    }

    /** The part of the commit script after its last check. */
    method Change(now: int, id: Id, c: Controls, left: int, ownerTtl: int)
      requires Full(Space()) && id in sess && c.oldKey in keys && keys[c.oldKey].v == id && (c.rotate ==> c.oldKey != c.newKey)
      modifies this
      ensures Space() == Applied(old(Space()), now, id, c, left, ownerTtl)
    {
      ghost var db := Space();
      var advanced := SetFields(now, id, c, ownerTtl);
      var active := Alter(now, id, c, left);
      if advanced { Settle(db, id, c, active, now + left); }
      Assembled(db, Space(), now, id, c, left, ownerTtl);
    }

    /** The keys and the cookies of a commit, before any deadline is refreshed. */
    method Alter(now: int, id: Id, c: Controls, left: int) returns (active: Id)
      requires (c.rotate ==> c.oldKey != c.newKey) && (id in rev ==> rev[id].v != {})
      requires (id in attr ==> attr[id].v != map[]) && (id in sha ==> sha[id].v != map[])
      modifies this`keys, this`rev, this`attr, this`sha
      ensures active == if c.rotate then c.newKey else c.oldKey
      ensures keys == if c.rotate then (old(keys) - {c.oldKey})[c.newKey := Row(id, Some(now + left))] else old(keys)
      ensures MembersOf(rev, id) == if c.rotate then old(MembersOf(rev, id)) - {c.oldKey} + {c.newKey} else old(MembersOf(rev, id))
      ensures rev - {id} == old(rev) - {id} && (id in rev ==> rev[id].v != {}) && (!c.rotate ==> rev == old(rev))
      ensures HashOf(attr, id) == Batch(old(HashOf(attr, id)), c.cookies, false) && HashOf(sha, id) == Batch(old(HashOf(sha, id)), c.cookies, true)
      ensures attr - {id} == old(attr) - {id} && sha - {id} == old(sha) - {id}
      ensures (id in attr ==> attr[id].v != map[]) && (id in sha ==> sha[id].v != map[])
      ensures c.cookies == [] ==> attr == old(attr) && sha == old(sha)
    {
      active := Rekey(now, id, c, left);
      WriteCookies(id, c.cookies);
    }

    /** The key part of a commit. */
    method Rekey(now: int, id: Id, c: Controls, left: int) returns (active: Id)
      requires (c.rotate ==> c.oldKey != c.newKey) && (id in rev ==> rev[id].v != {})
      modifies this`keys, this`rev
      ensures active == if c.rotate then c.newKey else c.oldKey
      ensures keys == if c.rotate then (old(keys) - {c.oldKey})[c.newKey := Row(id, Some(now + left))] else old(keys)
      ensures MembersOf(rev, id) == if c.rotate then old(MembersOf(rev, id)) - {c.oldKey} + {c.newKey} else old(MembersOf(rev, id))
      ensures rev - {id} == old(rev) - {id} && (id in rev ==> rev[id].v != {}) && (!c.rotate ==> rev == old(rev))
    {
      active := c.oldKey;
      if c.rotate {
        SwapKey(now, id, c.oldKey, c.newKey, left);
        active := c.newKey;
      }
    }

    /** The refresh at the end of a commit, on rows that were changed from `db`. */
    method Settle(ghost db: Db, id: Id, c: Controls, active: Id, at: int)
      requires c.oldKey in db.keys && db.keys[c.oldKey].v == id && active == (if c.rotate then c.newKey else c.oldKey)
      requires keys == if c.rotate then (db.keys - {c.oldKey})[c.newKey := Row(id, Some(at))] else db.keys
      requires rev - {id} == db.rev - {id} && (id in rev ==> rev[id].v != {})
      requires attr - {id} == db.attr - {id} && (id in attr ==> attr[id].v != map[])
      requires sha - {id} == db.sha - {id} && (id in sha ==> sha[id].v != map[])
      requires id in sess && sess == db.sess[id := sess[id]]
      modifies this
      ensures sess == db.sess[id := old(sess)[id].(deadline := Some(at))] && keys == CommittedKeys(db.keys, id, c, at) && owners == old(owners)
      ensures rev == SetRow(db.rev, id, old(MembersOf(rev, id)), at)
      ensures attr == HashRow(db.attr, id, old(HashOf(attr, id)), at) && sha == HashRow(db.sha, id, old(HashOf(sha, id)), at)
    {
      RefreshedPut(db.sess, id, sess[id], at);
      RefreshedHash(db.attr, attr, id, at);
      RefreshedHash(db.sha, sha, id, at);
      RefreshedSet(db.rev, rev, id, at);
      RefreshedKeys(db.keys, keys, id, c, active, at);
      Refresh(id, active, at);
    }

    method DeleteSession(now: int, id: Id)
      modifies this
      ensures Space() == RDelete(Evict(old(Space()), now), id)
    {
      Awake(now);
      var owner := if id in sess then sess[id].v.owner else 0;
      DropKeys(if id in rev then rev[id].v else {});
      sess, attr, sha, rev := sess - {id}, attr - {id}, sha - {id}, rev - {id};
      if owner != 0 { owners := SRem(owners, owner, id); }
    }

    /** The loop over a reverse set. */
    method DropKeys(ids: set<Id>)
      modifies this`keys
      ensures keys == old(keys) - ids
    {
      var todo := ids;
      while todo != {}
        invariant todo <= ids && keys == old(keys) - (ids - todo)
        decreases todo
      {
        var k :| k in todo;
        keys := keys - {k};
        todo := todo - {k};
      }
    }

    method PutKey(now: int, key: Id, id: Id) returns (code: int)
      modifies this
      ensures (Space(), code) == RPutKey(Evict(old(Space()), now), now, key, id)
    {
      Awake(now);
      if id !in sess { return 0; }
      var deadline := sess[id].deadline;
      if deadline == Some(now) { return 0; }
      keys := keys[key := Row(id, deadline)];
      rev := SAdd(rev, id, key);
      if deadline.Some? { rev := PExpire(rev, id, deadline.value); }
      return 1;
    }

    method OwnerSessions(now: int, owner: int) returns (ids: set<Id>)
      modifies this
      ensures Space() == Evict(old(Space()), now) && ids == MembersOf(owners, owner)
    {
      Awake(now);
      ids := if owner in owners then owners[owner].v else {};
    }

    method DeleteSessionByOwner(now: int, owner: int, id: Id) returns (code: int)
      modifies this
      ensures (Space(), code) == RDeleteByOwner(Evict(old(Space()), now), owner, id)
    {
      Awake(now);
      var current := if id in sess then sess[id].v.owner else 0;
      if current != owner {
        owners := SRem(owners, owner, id);
        return 0;
      }
      DropKeys(if id in rev then rev[id].v else {});
      sess, attr, sha, rev := sess - {id}, attr - {id}, sha - {id}, rev - {id};
      owners := SRem(owners, owner, id);
      return 1;
    }
  }

  /** The parts of a commit, put together. */
  lemma Assembled(db: Db, d: Db, now: int, id: Id, c: Controls, left: int, ownerTtl: int)
    requires id in db.sess && d.sess == db.sess[id := CommittedRow(db.sess[id], c, now + left)]
    requires d.owners == CommittedOwners(db, now, id, db.sess[id].v.owner, c, ownerTtl)
    requires if Advances(db.sess[id].v, c)
             then d.keys == CommittedKeys(db.keys, id, c, now + left) && d.rev == CommittedRev(db.rev, id, c, now + left)
                  && d.attr == CommittedHash(db.attr, id, c, now + left, false) && d.sha == CommittedHash(db.sha, id, c, now + left, true)
             else d.keys == db.keys && d.rev == db.rev && d.attr == db.attr && d.sha == db.sha
    ensures d == Applied(db, now, id, c, left, ownerTtl)
  {
  }

  lemma RefreshedPut<T>(t: map<Id, Row<T>>, id: Id, row: Row<T>, at: int)
    ensures PExpire(t[id := row], id, at) == t[id := row.(deadline := Some(at))]
  {
  }

  lemma RefreshedKeys(t: map<Id, Row<Id>>, u: map<Id, Row<Id>>, id: Id, c: Controls, active: Id, at: int)
    requires c.oldKey in t && t[c.oldKey].v == id && active == (if c.rotate then c.newKey else c.oldKey)
    requires u == if c.rotate then (t - {c.oldKey})[c.newKey := Row(id, Some(at))] else t
    ensures PExpire(u, active, at) == CommittedKeys(t, id, c, at)
  {
  }

  lemma RefreshedSet(before: map<Id, Row<set<Id>>>, after: map<Id, Row<set<Id>>>, id: Id, at: int)
    requires after - {id} == before - {id} && (id in after ==> after[id].v != {})
    ensures PExpire(after, id, at) == SetRow(before, id, MembersOf(after, id), at)
  {
    forall k | k != id ensures (k in after <==> k in before) && (k in after ==> after[k] == before[k]) {
      assert k in after <==> k in after - {id};
      assert k in before <==> k in before - {id};
    }
    assert PExpire(after, id, at).Keys == SetRow(before, id, MembersOf(after, id), at).Keys;
  }
}
