/** The in-memory store: plain maps changed in place. `View` is the value they
    represent; emptied rows and sets that the code leaves behind do not count. */
module MemoryStore {
  import opened Stores

  ghost function Rows(t: Table): Table { map i | i in t && t[i] != map[] :: t[i] }

  ghost function Sets(m: map<int, set<Id>>): map<int, set<Id>> { map o | o in m && m[o] != {} :: m[o] }

  class Memory {
    var sessions: map<Id, Session>
    var keys: map<Id, Id>
    var cookies: Table
    var shas: Table
    var owners: map<int, set<Id>>

    ghost function View(): Store
      reads this
    {
      Store(sessions, keys, Rows(cookies), Rows(shas), Sets(owners))
    }

    constructor ()
      ensures View() == EMPTY
    {
      sessions, keys, cookies, shas, owners := map[], map[], map[], map[], map[];
    }

    method PutSession(id: Id, x: Session)
      modifies this
      ensures View() == Stores.PutSession(old(View()), id, x)
    {
      sessions := sessions[id := x];
    }

    method TouchSession(id: Id, key: Id, lastAccess: int, legacyRotation: int) returns (code: Code)
      modifies this
      ensures (View(), code) == Touch(old(View()), id, key, lastAccess, legacyRotation)
    {
      if id !in sessions { return NotFound; }
      var s := sessions[id];
      if key !in keys || keys[key] != id { return Conflict; }
      if lastAccess > s.lastAccess {
        s := s.(lastAccess := lastAccess);
      }
      if s.lastRotation == 0 {
        s := s.(lastRotation := legacyRotation);
      }
      sessions := sessions[id := s];
      return Ok;
    }

    method MoveOwner(id: Id, from: int, to: int)
      modifies this`owners
      ensures Sets(owners) == Moved(old(Sets(owners)), id, from, to)
    {
      SetsMembers(owners, from);
      if from != 0 {
        if from in owners {
          SetsUpdate(owners, from, owners[from] - {id});
          owners := owners[from := owners[from] - {id}];
          if owners[from] == {} {
            SetsRemove(owners, from);
            owners := owners - {from};
          }
        }
      }
      SetsMembers(owners, to);
      if to !in owners {
        SetsUpdate(owners, to, {});
        owners := owners[to := {}];
      }
      SetsUpdate(owners, to, owners[to] + {id});
      owners := owners[to := owners[to] + {id}];
    }

    /** One write or delete in one of the two tables. */
    static method WriteEntry(table: map<Id, map<string, string>>, id: Id, m: CookieMutation, sha: bool) returns (t: map<Id, map<string, string>>)
      ensures RowOf(t, id) == Mutated(RowOf(table, id), m, sha)
      ensures t - {id} == table - {id}
    {
      t := table;
      if m.delete {
        if id in t { t := t[id := t[id] - {m.name}]; }
        return;
      }
      if id !in t { t := t[id := map[]]; }
      t := t[id := t[id][m.name := if sha then m.sha else m.value]];
    }

    /** The cookie loop of a commit. */
    method WriteCookies(id: Id, muts: seq<CookieMutation>)
      modifies this`cookies, this`shas
      ensures Rows(cookies) == WithRow(old(Rows(cookies)), id, Batch(RowOf(old(Rows(cookies)), id), muts, false))
      ensures Rows(shas) == WithRow(old(Rows(shas)), id, Batch(RowOf(old(Rows(shas)), id), muts, true))
    {
      for i := 0 to |muts|
        invariant RowOf(cookies, id) == Batch(RowOf(old(cookies), id), muts[..i], false)
        invariant RowOf(shas, id) == Batch(RowOf(old(shas), id), muts[..i], true)
        invariant cookies - {id} == old(cookies) - {id} && shas - {id} == old(shas) - {id}
      {
        assert muts[..i + 1][..i] == muts[..i] && muts[..i + 1][i] == muts[i];
        cookies := WriteEntry(cookies, id, muts[i], false);
        shas := WriteEntry(shas, id, muts[i], true);
      }
      assert muts[..|muts|] == muts;
      RowsChanged(old(cookies), cookies, id);
      RowsChanged(old(shas), shas, id);
    }

    /** The session row of a commit. */
    static method Amended(before: Session, c: Controls) returns (s: Session)
      ensures s == ControlledSession(before, c)
    {
      s := before;
      if c.setOwner && c.owner != s.owner { s := s.(owner := c.owner); }
      if c.setLabels { s := s.(labels := c.labels); }
      if c.lastAccess > s.lastAccess { s := s.(lastAccess := c.lastAccess); }
      if c.lastRotation > s.lastRotation { s := s.(lastRotation := c.lastRotation); }
    }

    method ApplySessionControls(id: Id, c: Controls) returns (code: Code)
      modifies this
      ensures (View(), code) == Apply(old(View()), id, c)
    {
      if id !in sessions { return NotFound; }
      var s := sessions[id];
      if c.oldKey !in keys || keys[c.oldKey] != id { return Conflict; }
      if c.rotate {
        if c.newKey in keys { return Conflict; }
      }
      if c.setOwner && c.owner != s.owner { MoveOwner(id, s.owner, c.owner); }
      s := Amended(s, c);
      if c.rotate {
        keys := keys[c.newKey := id];
        keys := keys - {c.oldKey};
        assert keys == (old(keys) - {c.oldKey})[c.newKey := id];
      }
      WriteCookies(id, c.cookies);
      sessions := sessions[id := s];
      return Ok;
    }

    method RotateSessionKey(id: Id, oldKey: Id, newKey: Id, lastRotation: int) returns (code: Code)
      modifies this
      ensures (View(), code) ==
              Apply(old(View()), id, Controls(false, 0, false, "", 0, lastRotation, oldKey, newKey, true, []))
    {
      code := ApplySessionControls(id, Controls(false, 0, false, "", 0, lastRotation, oldKey, newKey, true, []));
    }

    /** The loop that drops every key of a deleted session. */
    method DropKeys(id: Id)
      modifies this`keys
      ensures keys == KeysOutside(old(keys), {id})
    {
      var todo := keys.Keys;
      while todo != {}
        invariant todo <= old(keys).Keys
        invariant keys == map k | k in old(keys) && (k in todo || old(keys)[k] != id) :: old(keys)[k]
        decreases todo
      {
        var k :| k in todo;
        todo := todo - {k};
        if keys[k] == id { keys := keys - {k}; }
      }
    }

    method DeleteSession(id: Id)
      modifies this
      ensures View() == Delete(old(View()), id)
    {
      if id in sessions && sessions[id].owner != 0 {
        var o := sessions[id].owner;
        SetsMembers(owners, o);
        if o in owners {
          SetsUpdate(owners, o, owners[o] - {id});
          owners := owners[o := owners[o] - {id}];
        }
      }
      RowsRemove(cookies, id);
      RowsRemove(shas, id);
      sessions := sessions - {id};
      cookies := cookies - {id};
      shas := shas - {id};
      DropKeys(id);
    }

    method PutKey(key: Id, id: Id) returns (code: Code)
      modifies this
      ensures (View(), code) == Stores.PutKey(old(View()), key, id)
    {
      if id !in sessions { return NotFound; }
      keys := keys[key := id];
      return Ok;
    }

    method OwnerSessions(o: int) returns (ids: set<Id>)
      ensures ids == Members(View().owners, o)
    {
      ids := if o in owners then owners[o] else {};
    }

    method DeleteSessionByOwner(o: int, id: Id) returns (deleted: bool)
      modifies this
      ensures (View(), deleted) == DeleteByOwner(old(View()), o, id)
    {
      SetsMembers(owners, o);
      if o in owners {
        SetsUpdate(owners, o, owners[o] - {id});
        owners := owners[o := owners[o] - {id}];
      }
      RowsRemove(cookies, id);
      RowsRemove(shas, id);
      if id !in sessions || sessions[id].owner != o { return false; }
      sessions := sessions - {id};
      cookies := cookies - {id};
      shas := shas - {id};
      DropKeys(id);
      return true;
    }
  }

  /** Changing one row of a table changes that row of its value. */
  lemma RowsChanged(before: Table, after: Table, id: Id)
    requires after - {id} == before - {id}
    ensures Rows(after) == WithRow(Rows(before), id, RowOf(after, id)) && RowOf(Rows(before), id) == RowOf(before, id)
  {
    forall i | i != id ensures (i in after <==> i in before) && (i in before ==> after[i] == before[i]) {
      assert i in after - {id} <==> i in after;
      assert i in before - {id} <==> i in before;
      assert i in before - {id} ==> (before - {id})[i] == before[i] && (after - {id})[i] == after[i];
    }
    var row := WithRow(Rows(before), id, RowOf(after, id));
    assert forall i :: i in Rows(after) <==> i in row;
  }

  lemma RowsRemove(t: Table, id: Id)
    ensures Rows(t - {id}) == Rows(t) - {id}
  {
  }

  lemma SetsMembers(m: map<int, set<Id>>, o: int)
    ensures Members(Sets(m), o) == Members(m, o) && WithMembers(Sets(m), o, Members(m, o)) == Sets(m)
  {
  }

  lemma SetsUpdate(m: map<int, set<Id>>, o: int, ids: set<Id>)
    ensures Sets(m[o := ids]) == WithMembers(Sets(m), o, ids)
  {
  }

  lemma SetsRemove(m: map<int, set<Id>>, o: int)
    ensures Sets(m - {o}) == Sets(m) - {o}
  {
  }
}
