/** The persistence contract: the rows of the session store and the meaning of
    each atomic operation on them.

    A `Store` is the value every implementation represents. Inner maps and sets
    are never empty, so a missing row and an emptied one are the same value. */
module Stores {
  type Id = string

  datatype Option<+T> = None | Some(value: T)

  datatype Session = Session(
    creation: int, lastAccess: int, inactive: int, final: int,
    owner: int, lastRotation: int, labels: string)

  datatype CookieMutation = CookieMutation(name: string, value: string, sha: string, delete: bool)

  datatype Controls = Controls(
    setOwner: bool, owner: int, setLabels: bool, labels: string,
    lastAccess: int, lastRotation: int,
    oldKey: Id, newKey: Id, rotate: bool, cookies: seq<CookieMutation>)

  datatype Code = Ok | NotFound | Conflict

  type Table = map<Id, map<string, string>>

  datatype Store = Store(
    sessions: map<Id, Session>, keys: map<Id, Id>,
    cookies: Table, shas: Table, owners: map<int, set<Id>>)

  const EMPTY := Store(map[], map[], map[], map[], map[])

  function Max(a: int, b: int): int { if a < b then b else a }

  // ---- rows -------------------------------------------------------------

  predicate Maps(s: Store, key: Id, id: Id) {
    key in s.keys && s.keys[key] == id
  }

  function RowOf(t: Table, id: Id): map<string, string> {
    if id in t then t[id] else map[]
  }

  function WithRow(t: Table, id: Id, row: map<string, string>): Table {
    if row == map[] then t - {id} else t[id := row]
  }

  function Members(owners: map<int, set<Id>>, o: int): set<Id> {
    if o in owners then owners[o] else {}
  }

  function WithMembers(owners: map<int, set<Id>>, o: int, m: set<Id>): map<int, set<Id>> {
    if m == {} then owners - {o} else owners[o := m]
  }

  /** Owner index after session `id` moves from owner `from` (0: none) to `to`. */
  function Moved(owners: map<int, set<Id>>, id: Id, from: int, to: int): map<int, set<Id>> {
    var cut := if from != 0 then WithMembers(owners, from, Members(owners, from) - {id}) else owners;
    WithMembers(cut, to, Members(cut, to) + {id})
  }

  function Written(m: CookieMutation, sha: bool): string { if sha then m.sha else m.value }

  function Mutated(row: map<string, string>, m: CookieMutation, sha: bool): map<string, string> {
    if m.delete then row - {m.name} else row[m.name := Written(m, sha)]
  }

  /** A cookie row (or its hash row) after a batch of writes and deletes, in order. */
  function Batch(row: map<string, string>, muts: seq<CookieMutation>, sha: bool): map<string, string> {
    if muts == [] then row
    else Mutated(Batch(row, muts[..|muts| - 1], sha), muts[|muts| - 1], sha)
  }

  // ---- atomic operations ------------------------------------------------

  function PutSession(s: Store, id: Id, session: Session): Store {
    s.(sessions := s.sessions[id := session])
  }

  function PutKey(s: Store, key: Id, id: Id): (r: (Store, Code)) {
    if id !in s.sessions then (s, NotFound) else (s.(keys := s.keys[key := id]), Ok)
  }

  function TouchedSession(x: Session, lastAccess: int, legacyRotation: int): Session {
    x.(lastAccess := Max(x.lastAccess, lastAccess),
       lastRotation := if x.lastRotation == 0 then legacyRotation else x.lastRotation)
  }

  function Touch(s: Store, id: Id, key: Id, lastAccess: int, legacyRotation: int): (r: (Store, Code)) {
    if id !in s.sessions then (s, NotFound)
    else if !Maps(s, key, id) then (s, Conflict)
    else (s.(sessions := s.sessions[id := TouchedSession(s.sessions[id], lastAccess, legacyRotation)]), Ok)
  }

  function ControlledSession(x: Session, c: Controls): Session {
    x.(owner := if c.setOwner then c.owner else x.owner,
       labels := if c.setLabels then c.labels else x.labels,
       lastAccess := Max(x.lastAccess, c.lastAccess),
       lastRotation := Max(x.lastRotation, c.lastRotation))
  }

  /** The compare-and-swap commit: nothing changes unless `oldKey` still maps to `id`. */
  function Apply(s: Store, id: Id, c: Controls): (r: (Store, Code)) {
    if id !in s.sessions then (s, NotFound)
    else if !Maps(s, c.oldKey, id) then (s, Conflict)
    else if c.rotate && c.newKey in s.keys then (s, Conflict)
    else (Store(
            s.sessions[id := ControlledSession(s.sessions[id], c)],
            if c.rotate then (s.keys - {c.oldKey})[c.newKey := id] else s.keys,
            WithRow(s.cookies, id, Batch(RowOf(s.cookies, id), c.cookies, false)),
            WithRow(s.shas, id, Batch(RowOf(s.shas, id), c.cookies, true)),
            if c.setOwner && c.owner != s.sessions[id].owner
            then Moved(s.owners, id, s.sessions[id].owner, c.owner) else s.owners), Ok)
  }

  function KeysOutside(keys: map<Id, Id>, ids: set<Id>): map<Id, Id> {
    map k | k in keys && keys[k] !in ids :: keys[k]
  }

  function Delete(s: Store, id: Id): Store {
    Store(s.sessions - {id}, KeysOutside(s.keys, {id}), s.cookies - {id}, s.shas - {id},
          if id in s.sessions && s.sessions[id].owner != 0
          then WithMembers(s.owners, s.sessions[id].owner, Members(s.owners, s.sessions[id].owner) - {id})
          else s.owners)
  }

  function DeleteByOwner(s: Store, o: int, id: Id): (r: (Store, bool)) {
    var pruned := WithMembers(s.owners, o, Members(s.owners, o) - {id});
    if id in s.sessions && s.sessions[id].owner == o
    then (Store(s.sessions - {id}, KeysOutside(s.keys, {id}), s.cookies - {id}, s.shas - {id}, pruned), true)
    else (s.(owners := pruned), false)
  }

  /** The sessions `ids` with everything that belongs to them are gone. */
  function Expire(s: Store, ids: set<Id>): Store {
    Store(s.sessions - ids, KeysOutside(s.keys, ids), s.cookies - ids, s.shas - ids,
          map o | o in s.owners && s.owners[o] - ids != {} :: s.owners[o] - ids)
  }

  /** What the replies of the conditional operations mean. */
  lemma RepliesAreExact(s: Store, id: Id, key: Id, a: int, l: int, c: Controls)
    ensures (Touch(s, id, key, a, l).1 == NotFound <==> id !in s.sessions) && (Apply(s, id, c).1 == NotFound <==> id !in s.sessions)
    ensures Touch(s, id, key, a, l).1 == Ok <==> id in s.sessions && key in s.keys && s.keys[key] == id
    ensures Apply(s, id, c).1 == Ok <==> id in s.sessions && c.oldKey in s.keys && s.keys[c.oldKey] == id && (c.rotate ==> c.newKey !in s.keys)
    ensures PutKey(s, key, id).1 == Ok <==> id in s.sessions
  {
  }

  // ---- what Manager runs keep -------------------------------------------

  /** Every key, cookie and hash row belongs to a session, and a session has at most one key. */
  ghost predicate Rooted(s: Store) {
    && (forall k <- s.keys :: s.keys[k] in s.sessions)
    && (forall k <- s.keys, l <- s.keys :: s.keys[k] == s.keys[l] ==> k == l)
    && (forall id <- s.cookies :: id in s.sessions && s.cookies[id] != map[])
    && (forall id <- s.shas :: id in s.sessions && s.shas[id] != map[])
  }

  /** The owner index lists exactly the sessions bound to a nonzero owner. */
  ghost predicate Indexed(s: Store) {
    && (forall o <- s.owners :: o != 0 && s.owners[o] != {})
    && (forall o <- s.owners, id <- s.owners[o] :: id in s.sessions && s.sessions[id].owner == o)
    && (forall id <- s.sessions :: s.sessions[id].owner != 0 ==> id in Members(s.owners, s.sessions[id].owner))
  }

  ghost predicate Sound(s: Store) { Rooted(s) && Indexed(s) }

  lemma PutSessionSound(s: Store, id: Id, x: Session)
    requires Sound(s) && id !in s.sessions && x.owner == 0
    ensures Sound(PutSession(s, id, x))
  {
  }

  lemma PutKeySound(s: Store, key: Id, id: Id)
    requires Sound(s) && key !in s.keys && forall k <- s.keys :: s.keys[k] != id
    ensures Sound(PutKey(s, key, id).0)
  {
  }

  lemma TouchSound(s: Store, id: Id, key: Id, a: int, l: int)
    requires Sound(s)
    ensures Sound(Touch(s, id, key, a, l).0)
  {
  }

  lemma MovedIndexed(s: Store, t: Store, id: Id, to: int)
    requires Indexed(s) && id in s.sessions && to != 0 && to != s.sessions[id].owner
    requires t.sessions.Keys == s.sessions.Keys && t.sessions[id].owner == to
    requires forall i <- s.sessions :: i != id ==> t.sessions[i].owner == s.sessions[i].owner
    requires t.owners == Moved(s.owners, id, s.sessions[id].owner, to)
    ensures Indexed(t)
  {
  }

  lemma ApplyRooted(s: Store, id: Id, c: Controls)
    requires Rooted(s)
    ensures Rooted(Apply(s, id, c).0)
  {
  }

  lemma ApplySound(s: Store, id: Id, c: Controls)
    requires Sound(s) && (c.setOwner ==> c.owner != 0)
    ensures Sound(Apply(s, id, c).0)
  {
    ApplyRooted(s, id, c);
    var t := Apply(s, id, c).0;
    if t != s && c.setOwner && c.owner != s.sessions[id].owner {
      MovedIndexed(s, t, id, c.owner);
    } else {
      assert t.owners == s.owners;
    }
  }

  lemma ExpireSound(s: Store, ids: set<Id>)
    requires Sound(s)
    ensures Sound(Expire(s, ids))
  {
  }

  /** Taking a session off its owner's list takes it off the index. */
  lemma OwnersWithout(s: Store, id: Id)
    requires Indexed(s)
    ensures Delete(s, id).owners == Expire(s, {id}).owners
  {
    forall o | o in s.owners && !(id in s.sessions && s.sessions[id].owner == o)
      ensures s.owners[o] - {id} == s.owners[o] && s.owners[o] != {}
    {
      assert id !in s.owners[o];
    }
    assert Delete(s, id).owners.Keys == Expire(s, {id}).owners.Keys;
  }

  /** Both ways of deleting a session remove the whole cascade, and nothing else. */
  lemma DeleteIsExpire(s: Store, id: Id)
    requires Sound(s)
    ensures Delete(s, id) == Expire(s, {id})
  {
    OwnersWithout(s, id);
  }

  lemma DeleteByOwnerIsExpire(s: Store, o: int, id: Id)
    requires Sound(s) && o != 0
    ensures DeleteByOwner(s, o, id) ==
            if id in s.sessions && s.sessions[id].owner == o then (Expire(s, {id}), true) else (s, false)
  {
    if id in s.sessions && s.sessions[id].owner == o {
      DeleteIsExpire(s, id);
    } else {
      assert id !in Members(s.owners, o);
      assert Members(s.owners, o) - {id} == Members(s.owners, o);
      assert WithMembers(s.owners, o, Members(s.owners, o)) == s.owners;
    }
  }

  function Lookup(row: map<string, string>, n: string): Option<string> {
    if n in row then Some(row[n]) else None
  }

  /** Later mutations of the batch do not mention the name of this one. */
  predicate IsLast(muts: seq<CookieMutation>, i: nat) {
    i < |muts| && forall j :: i < j < |muts| ==> muts[j].name != muts[i].name
  }

  predicate Mentions(muts: seq<CookieMutation>, n: string) { exists m <- muts :: m.name == n }

  /** In a batch the last mutation of a name decides ... */
  lemma {:induction false} BatchLastWins(row: map<string, string>, muts: seq<CookieMutation>, sha: bool, i: nat)
    requires IsLast(muts, i)
    ensures Lookup(Batch(row, muts, sha), muts[i].name)
         == if muts[i].delete then None else Some(if sha then muts[i].sha else muts[i].value)
  {
    if i < |muts| - 1 {
      BatchLastWins(row, muts[..|muts| - 1], sha, i);
    }
  }

  /** ... and a name no mutation mentions keeps its value. */
  lemma {:induction false} BatchKeepsOthers(row: map<string, string>, muts: seq<CookieMutation>, sha: bool, n: string)
    requires !Mentions(muts, n)
    ensures Lookup(Batch(row, muts, sha), n) == Lookup(row, n)
  {
    if muts != [] {
      assert muts[|muts| - 1] in muts && forall m <- muts[..|muts| - 1] :: m in muts;
      BatchKeepsOthers(row, muts[..|muts| - 1], sha, n);
    }
  }

  /** The value stored under a cookie's name, and its digest. */
  function CookieIn(s: Store, id: Id, n: string): Option<string> { Lookup(RowOf(s.cookies, id), n) }

  function DigestIn(s: Store, id: Id, n: string): Option<string> { Lookup(RowOf(s.shas, id), n) }

  /** A commit that goes through leaves the last value of each name it mentions as the
      cookie and its digest as the digest, or neither if that one was a delete ... */
  lemma CommitWrites(s: Store, id: Id, c: Controls, i: nat)
    requires Apply(s, id, c).1 == Ok && IsLast(c.cookies, i)
    ensures var t, m := Apply(s, id, c).0, c.cookies[i];
            && CookieIn(t, id, m.name) == (if m.delete then None else Some(m.value))
            && DigestIn(t, id, m.name) == (if m.delete then None else Some(m.sha))
  {
    BatchLastWins(RowOf(s.cookies, id), c.cookies, false, i);
    BatchLastWins(RowOf(s.shas, id), c.cookies, true, i);
  }

  /** ... and every other cookie and digest of every session as it was. */
  lemma CommitKeepsOthers(s: Store, id: Id, c: Controls, other: Id, n: string)
    requires other != id || !Mentions(c.cookies, n)
    ensures var t := Apply(s, id, c).0; CookieIn(t, other, n) == CookieIn(s, other, n) && DigestIn(t, other, n) == DigestIn(s, other, n)
  {
    if other == id {
      BatchKeepsOthers(RowOf(s.cookies, id), c.cookies, false, n);
      BatchKeepsOthers(RowOf(s.shas, id), c.cookies, true, n);
    }
  }

  /** Expiry takes the given sessions with their keys, cookies, digests and index
      entries, and leaves every other row as it was. */
  lemma ExpireIsExact(s: Store, ids: set<Id>, id: Id, k: Id, o: int, n: string)
    ensures var t := Expire(s, ids);
            && (id in t.sessions <==> id in s.sessions && id !in ids) && (id in t.sessions ==> t.sessions[id] == s.sessions[id])
            && (k in t.keys <==> k in s.keys && s.keys[k] !in ids) && (k in t.keys ==> t.keys[k] == s.keys[k])
            && CookieIn(t, id, n) == (if id in ids then None else CookieIn(s, id, n))
            && DigestIn(t, id, n) == (if id in ids then None else DigestIn(s, id, n))
            && (id in Members(t.owners, o) <==> id in Members(s.owners, o) && id !in ids)
  {
    if o in s.owners && id in s.owners[o] && id !in ids { assert id in s.owners[o] - ids; }
  }
}
