/**
 The store of authorizations: for every owner a table from actors to what they may sign.
 An absent owner means "the owner may sign everything, nobody else anything".
 */
module Authority {
  import opened Basics

  datatype Record = Record(full: bool, ids: set<nat>)

  type Table = map<Address, Record>
  type Store = map<Address, Table>

  const FULL := Record(true, {})
  const DUMMY := Record(false, {})

  // ----- Normal form -----

  predicate NormalTable(owner: Address, t: Table) {
    && owner in t
    && t != map[owner := FULL]
    && (forall a <- t :: t[a].full ==> t[a].ids == {})
    && (forall a <- t :: a != owner ==> t[a] != DUMMY)
  }

  predicate Normal(s: Store) {
    forall owner <- s :: NormalTable(owner, s[owner])
  }

  // Like a normal table while one record is being worked on.
  predicate OpenTable(owner: Address, t: Table, actor: Address) {
    && owner in t && actor in t
    && (forall a <- t :: t[a].full ==> t[a].ids == {})
    && (forall a <- t :: a != owner && a != actor ==> t[a] != DUMMY)
  }

  // What `actor` may sign for `owner`; None where the code throws.
  function RecordOf(s: Store, owner: Address, actor: Address): Option<Record> {
    if owner !in s then Some(if actor == owner then FULL else DUMMY)
    else if actor in s[owner] then Some(s[owner][actor])
    else if actor == owner then None
    else Some(DUMMY)
  }

  lemma NormalHasRecords(s: Store, owner: Address, actor: Address)
    requires Normal(s)
    ensures RecordOf(s, owner, actor).Some?
    ensures RecordOf(s, owner, actor).value.full ==> RecordOf(s, owner, actor).value.ids == {}
  {}

  // A normal store is determined by the rights it grants.
  lemma NormalIsCanonical(s: Store, s': Store)
    requires Normal(s) && Normal(s')
    requires forall owner, actor :: RecordOf(s, owner, actor) == RecordOf(s', owner, actor)
    ensures s == s'
  {
    forall owner ensures owner in s <==> owner in s' {
      OwnersAgree(s, s', owner);
      OwnersAgree(s', s, owner);
    }
    forall owner | owner in s ensures s[owner] == s'[owner] {
      assert NormalTable(owner, s[owner]) && NormalTable(owner, s'[owner]);
      forall actor ensures actor in s[owner] <==> actor in s'[owner] {
        assert RecordOf(s, owner, actor) == RecordOf(s', owner, actor);
      }
      forall actor | actor in s[owner] ensures s[owner][actor] == s'[owner][actor] {
        assert RecordOf(s, owner, actor) == RecordOf(s', owner, actor);
      }
    }
  }

  lemma OnlyTheOwner(owner: Address, t: Table)
    requires owner in t && t[owner] == FULL && forall a <- t :: a == owner
    ensures t == map[owner := FULL]
  {}

  lemma OwnersAgree(s: Store, s': Store, owner: Address)
    requires Normal(s) && Normal(s')
    requires forall owner, actor :: RecordOf(s, owner, actor) == RecordOf(s', owner, actor)
    ensures owner in s ==> owner in s'
  {
    if owner in s && owner !in s' {
      var t := s[owner];
      assert NormalTable(owner, t);
      assert RecordOf(s, owner, owner) == RecordOf(s', owner, owner) == Some(FULL);
      forall a | a in t ensures a == owner {
        assert RecordOf(s, owner, a) == RecordOf(s', owner, a);
      }
      OnlyTheOwner(owner, t);
    }
  }

  predicate Allows(r: Record, id: nat) {
    if id in r.ids then !r.full else r.full
  }

  function Check(s: Store, owner: Address, signer: Address, id: nat): bool
    requires RecordOf(s, owner, signer).Some?
  {
    Allows(RecordOf(s, owner, signer).value, id)
  }

  // ----- Steps on the store -----

  function Created(s: Store, owner: Address, actor: Address): Store {
    var t := if owner in s then s[owner] else map[owner := FULL];
    s[owner := if actor == owner || actor in t then t else t[actor := DUMMY]]
  }

  function WithoutDummy(t: Table, owner: Address, actor: Address): Table
    requires actor in t
  {
    if owner != actor && t[actor] == DUMMY then t - {actor} else t
  }

  function Stored(s: Store, owner: Address, t: Table): Store {
    if t == map[owner := FULL] then s - {owner} else s[owner := t]
  }

  // None where the code throws.
  function Cleaned(s: Store, owner: Address, actor: Address): Option<Store> {
    if owner !in s then (if owner != actor then None else Some(s))
    else if actor !in s[owner] then None
    else
      var t := WithoutDummy(s[owner], owner, actor);
      if owner !in t then None else Some(Stored(s, owner, t))
  }

  // The store with the record of (owner, actor) replaced by `r`, tidied up.
  function Put(s: Store, owner: Address, actor: Address, r: Record): Option<Store> {
    var c := Created(s, owner, actor);
    Cleaned(c[owner := c[owner][actor := r]], owner, actor)
  }

  lemma CreatedRecords(s: Store, owner: Address, actor: Address, o: Address, a: Address)
    requires Normal(s)
    ensures owner in Created(s, owner, actor) && OpenTable(owner, Created(s, owner, actor)[owner], actor)
    ensures RecordOf(Created(s, owner, actor), o, a) == RecordOf(s, o, a)
  {
    if owner in s { assert NormalTable(owner, s[owner]); }
  }

  lemma TidyTable(owner: Address, t: Table, actor: Address, r: Record)
    requires OpenTable(owner, t, actor) && (r.full ==> r.ids == {})
    ensures var t' := WithoutDummy(t[actor := r], owner, actor);
            && owner in t'
            && (t' == map[owner := FULL] || NormalTable(owner, t'))
            && forall a :: RecordOf(map[owner := t'], owner, a) == RecordOf(map[owner := t[actor := r]], owner, a)
  {}

  lemma StoredRecords(s: Store, owner: Address, t: Table, o: Address, a: Address)
    requires owner in t
    ensures RecordOf(Stored(s, owner, t), o, a) == RecordOf(if o == owner then map[owner := t] else s, o, a)
  {}

  // The owner's table after putting `r` on record and tidying up.
  function TableWith(s: Store, owner: Address, actor: Address, r: Record): Table {
    WithoutDummy(Created(s, owner, actor)[owner][actor := r], owner, actor)
  }

  lemma PutStores(s: Store, owner: Address, actor: Address, r: Record)
    requires Normal(s) && (r.full ==> r.ids == {})
    ensures var t := TableWith(s, owner, actor, r);
            && owner in t && (t == map[owner := FULL] || NormalTable(owner, t))
            && Put(s, owner, actor, r).Some?
            && Put(s, owner, actor, r).value == Stored(Created(s, owner, actor)[owner := Created(s, owner, actor)[owner][actor := r]], owner, t)
            && forall a :: RecordOf(map[owner := t], owner, a) ==
                           RecordOf(map[owner := Created(s, owner, actor)[owner][actor := r]], owner, a)
  {
    CreatedRecords(s, owner, actor, owner, actor);
    TidyTable(owner, Created(s, owner, actor)[owner], actor, r);
  }

  lemma PutIsNormal(s: Store, owner: Address, actor: Address, r: Record)
    requires Normal(s) && (r.full ==> r.ids == {})
    ensures Put(s, owner, actor, r).Some? && Normal(Put(s, owner, actor, r).value)
  {
    PutStores(s, owner, actor, r);
    StoredIsNormal(s, Created(s, owner, actor), owner, Created(s, owner, actor)[owner][actor := r], TableWith(s, owner, actor, r));
  }

  lemma StoredIsNormal(s: Store, c: Store, owner: Address, t: Table, t': Table)
    requires Normal(s) && (t' == map[owner := FULL] || NormalTable(owner, t'))
    requires forall o :: o != owner ==> (o in c <==> o in s) && (o in c ==> c[o] == s[o])
    ensures Normal(Stored(c[owner := t], owner, t'))
  {
    var s' := Stored(c[owner := t], owner, t');
    forall o | o in s' ensures NormalTable(o, s'[o]) {
      if o != owner { assert s'[o] == s[o] && NormalTable(o, s[o]); }
    }
  }

  lemma PutAt(s: Store, owner: Address, actor: Address, r: Record, o: Address, a: Address)
    requires Normal(s) && (r.full ==> r.ids == {})
    ensures Put(s, owner, actor, r).Some?
    ensures RecordOf(Put(s, owner, actor, r).value, o, a) == if o == owner && a == actor then Some(r) else RecordOf(s, o, a)
  {
    var c := Created(s, owner, actor);
    var t := c[owner][actor := r];
    PutStores(s, owner, actor, r);
    CreatedRecords(s, owner, actor, o, a);
    StoredRecords(c[owner := t], owner, TableWith(s, owner, actor, r), o, a);
    assert RecordOf(map[owner := TableWith(s, owner, actor, r)], owner, a) == RecordOf(map[owner := t], owner, a);
  }

  // Putting `r` on record and tidying up changes one right and keeps the normal form.
  lemma PutRecord(s: Store, owner: Address, actor: Address, r: Record)
    requires Normal(s) && (r.full ==> r.ids == {})
    ensures RecordOf(Created(s, owner, actor), owner, actor) == RecordOf(s, owner, actor)
    ensures Put(s, owner, actor, r).Some? && Normal(Put(s, owner, actor, r).value)
    ensures forall o, a :: RecordOf(Put(s, owner, actor, r).value, o, a) ==
                           if o == owner && a == actor then Some(r) else RecordOf(s, o, a)
  {
    CreatedRecords(s, owner, actor, owner, actor);
    PutIsNormal(s, owner, actor, r);
    forall o, a
      ensures RecordOf(Put(s, owner, actor, r).value, o, a) == if o == owner && a == actor then Some(r) else RecordOf(s, o, a)
    {
      PutAt(s, owner, actor, r, o, a);
    }
  }

  /** The stored tables, changed in place. */
  class AuthorityManager {
    var store: Store

    constructor ()
      ensures store == map[]
    {
      store := map[];
    }

    // None where the code throws.
    method GetRecord(address: Address, authority: Address) returns (r: Option<Record>)
      ensures r == RecordOf(store, address, authority)
    {
      if address !in store {
        return Some(Record(authority == address, {}));
      }
      var auths := store[address];
      if authority !in auths {
        if authority == address { return None; }
        return Some(Record(false, {}));
      }
      return Some(auths[authority]);
    }

    method CheckAuthority(address: Address, authority: Address, id: nat) returns (r: Option<bool>)
      ensures r == if RecordOf(store, address, authority).None? then None
                   else Some(Check(store, address, authority, id))
    {
      var record := GetRecord(address, authority);
      if record.None? { return None; }
      if id in record.value.ids { return Some(!record.value.full); }
      return Some(record.value.full);
    }

    method SetRecord(address: Address, authority: Address, r: Record) returns (ok: bool)
      modifies this
      ensures ok <==> address in old(store) && authority in old(store)[address]
      ensures ok ==> store == old(store)[address := old(store)[address][authority := r]]
      ensures !ok ==> store == old(store)
    {
      if address !in store || authority !in store[address] { return false; }
      store := store[address := store[address][authority := r]];
      return true;
    }

    method SmartCreateDummyRecord(address: Address, authority: Address)
      modifies this
      ensures store == Created(old(store), address, authority)
    {
      if address !in store {
        store := store[address := map[address := Record(true, {})]];
      }
      if address != authority && authority !in store[address] {
        store := store[address := store[address][authority := Record(false, {})]];
      }
      assert store == Created(old(store), address, authority);
    }

    method SmartCleanupDummyRecord(address: Address, authority: Address) returns (ok: bool)
      modifies this
      ensures ok <==> Cleaned(old(store), address, authority).Some?
      ensures ok ==> store == Cleaned(old(store), address, authority).value
    {
      if address != authority {
        if address !in store || authority !in store[address] { return false; }
        var record := store[address][authority];
        if !record.full && record.ids == {} {
          store := store[address := store[address] - {authority}];
        }
      }
      if address in store {
        var auths := store[address];
        if address !in auths { return false; }
        if auths[address].full && auths[address].ids == {} && |auths| == 1 {
          OneEntry(address, auths);
          store := store - {address};
        }
      }
      return true;
    }
  }

  lemma OneEntry(owner: Address, t: Table)
    requires owner in t && |t| == 1
    ensures t.Keys == {owner}
  {
    assert |t.Keys - {owner}| == 0;
  }
}

/** Updates of authorizations as signed by an owner or somebody allowed to sign for them. */
module Authorization {
  import opened Basics
  import opened Authority

  // `store` awards, otherwise rejects; an empty `ids` means everything.
  datatype Update = Update(owner: Address, actor: Address, store: bool, ids: set<nat>)

  // The record after the update, None where the update is not possible.
  function Awarded(r: Record, ids: set<nat>): Option<Record> {
    if ids == {} then (if r == DUMMY then Some(FULL) else None)
    else if r.full then None
    else if r.ids !! ids then Some(Record(false, r.ids + ids))
    else None
  }

  function Rejected(r: Record, ids: set<nat>): Option<Record> {
    if ids == {} then (if r == FULL then Some(DUMMY) else None)
    else if r.full then None
    else if ids <= r.ids then Some(Record(false, r.ids - ids))
    else None
  }

  function Applied(r: Record, u: Update): Option<Record> {
    if u.store then Awarded(r, u.ids) else Rejected(r, u.ids)
  }

  function Reverted(r: Record, u: Update): Option<Record> {
    if u.store then Rejected(r, u.ids) else Awarded(r, u.ids)
  }

  lemma RevertedUndoesApplied(r: Record, u: Update)
    requires Applied(r, u).Some?
    ensures Reverted(Applied(r, u).value, u) == Some(r)
  {
    assert (r.ids + u.ids) - u.ids == r.ids || !(r.ids !! u.ids);
    assert (r.ids - u.ids) + u.ids == r.ids || !(u.ids <= r.ids);
  }

  function Apply(s: Store, u: Update): Option<Store> {
    var r := RecordOf(Created(s, u.owner, u.actor), u.owner, u.actor);
    if r.None? || Applied(r.value, u).None? then None
    else Put(s, u.owner, u.actor, Applied(r.value, u).value)
  }

  function Revert(s: Store, u: Update): Option<Store> {
    var r := RecordOf(Created(s, u.owner, u.actor), u.owner, u.actor);
    if r.None? || Reverted(r.value, u).None? then None
    else Put(s, u.owner, u.actor, Reverted(r.value, u).value)
  }

  function CanApply(s: Store, u: Update): bool {
    var r := RecordOf(s, u.owner, u.actor);
    r.Some? && Applied(r.value, u).Some?
  }

  // In a normal store a possible update is carried out and changes exactly one right;
  // undoing it gives the very same store back.
  lemma ApplyThenRevert(s: Store, u: Update)
    requires Normal(s)
    ensures CanApply(s, u) <==> Apply(s, u).Some?
    ensures CanApply(s, u) ==>
              && Normal(Apply(s, u).value)
              && RecordOf(Apply(s, u).value, u.owner, u.actor) == Applied(RecordOf(s, u.owner, u.actor).value, u)
              && (forall o, a :: (o != u.owner || a != u.actor) ==>
                    RecordOf(Apply(s, u).value, o, a) == RecordOf(s, o, a))
              && Revert(Apply(s, u).value, u) == Some(s)
  {
    NormalHasRecords(s, u.owner, u.actor);
    var r := RecordOf(s, u.owner, u.actor).value;
    PutRecord(s, u.owner, u.actor, r);
    if Applied(r, u).Some? {
      PutRecord(s, u.owner, u.actor, Applied(r, u).value);
      var s' := Apply(s, u).value;
      RevertedUndoesApplied(r, u);
      PutRecord(s', u.owner, u.actor, r);
      NormalIsCanonical(Revert(s', u).value, s);
    }
  }

  // ----- The three entry points of the transaction handler -----

  datatype Verdict = Yes | No | Threw

  // Adds every id, failing on the first one already there.
  method InsertAll(ids: set<nat>, extra: set<nat>) returns (ok: bool, ids': set<nat>)
    ensures ok <==> ids !! extra
    ensures ok ==> ids' == ids + extra
  {
    ids' := ids;
    var rest := extra;
    while rest != {}
      invariant rest <= extra && ids' == ids + (extra - rest)
      invariant ids !! (extra - rest)
      decreases rest
    {
      var id :| id in rest;
      if id in ids' { return false, ids'; }
      ids', rest := ids' + {id}, rest - {id};
    }
    return true, ids';
  }

  method EraseAll(ids: set<nat>, gone: set<nat>) returns (ok: bool, ids': set<nat>)
    ensures ok <==> gone <= ids
    ensures ok ==> ids' == ids - gone
  {
    ids' := ids;
    var rest := gone;
    while rest != {}
      invariant rest <= gone && ids' == ids - (gone - rest)
      invariant gone - rest <= ids
      decreases rest
    {
      var id :| id in rest;
      if id !in ids' { return false, ids'; }
      ids', rest := ids' - {id}, rest - {id};
    }
    return true, ids';
  }

  // Awarding or rejecting on a record; `No` where the code refuses or throws on bad input,
  // `Threw` on the branch the code calls impossible.
  method Award(r: Record, ids: set<nat>) returns (v: Verdict, r': Record)
    requires r.full ==> r.ids == {}
    ensures v == if Awarded(r, ids).Some? then Yes else No
    ensures v.Yes? ==> r' == Awarded(r, ids).value
  {
    r' := r;
    if ids == {} {
      if r.full || r.ids != {} { return No, r; }
      return Yes, Record(true, r.ids);
    }
    if r.full {
      var id :| id in ids;
      if id !in r.ids { return No, r; }
      return Threw, r;
    }
    var ok, all := InsertAll(r.ids, ids);
    return if ok then Yes else No, Record(false, all);
  }

  method Reject(r: Record, ids: set<nat>) returns (v: Verdict, r': Record)
    requires r.full ==> r.ids == {}
    ensures v == if Rejected(r, ids).Some? then Yes else No
    ensures v.Yes? ==> r' == Rejected(r, ids).value
  {
    r' := r;
    if ids == {} {
      if !r.full || r.ids != {} { return No, r; }
      return Yes, Record(false, r.ids);
    }
    if r.full { return No, r; }
    var ok, all := EraseAll(r.ids, ids);
    return if ok then Yes else No, Record(false, all);
  }

  const UPDATE_ID: nat := 1

  method ActionCanApply(m: AuthorityManager, signer: Address, u: Update) returns (v: Verdict)
    requires Normal(m.store)
    ensures v == if Check(m.store, u.owner, signer, UPDATE_ID) && CanApply(m.store, u) then Yes else No
  {
    var allowed := m.CheckAuthority(u.owner, signer, UPDATE_ID);
    NormalHasRecords(m.store, u.owner, signer);
    NormalHasRecords(m.store, u.owner, u.actor);
    if !allowed.value { return No; }
    var r := m.GetRecord(u.owner, u.actor);
    var r';
    if u.store { v, r' := Award(r.value, u.ids); } else { v, r' := Reject(r.value, u.ids); }
  }

  // Puts the new record where a dummy was made sure of, and tidies up.
  method StoreRecord(m: AuthorityManager, owner: Address, actor: Address, r: Record, ghost was: Store) returns (ok: bool)
    requires Normal(was) && m.store == Created(was, owner, actor) && (r.full ==> r.ids == {})
    modifies m
    ensures ok && Put(was, owner, actor, r) == Some(m.store)
  {
    PutRecord(was, owner, actor, r);
    CreatedRecords(was, owner, actor, owner, actor);
    ok := m.SetRecord(owner, actor, r);
    if ok { ok := m.SmartCleanupDummyRecord(owner, actor); }
  }

  method ActionApply(m: AuthorityManager, signer: Address, u: Update) returns (v: Verdict)
    requires Normal(m.store)
    modifies m
    ensures v == if Check(old(m.store), u.owner, signer, UPDATE_ID) && CanApply(old(m.store), u) then Yes else No
    ensures v.Yes? ==> Apply(old(m.store), u) == Some(m.store) && Normal(m.store)
  {
    ghost var was := m.store;
    var allowed := m.CheckAuthority(u.owner, signer, UPDATE_ID);
    NormalHasRecords(was, u.owner, signer);
    NormalHasRecords(was, u.owner, u.actor);
    ApplyThenRevert(was, u);
    PutRecord(was, u.owner, u.actor, DUMMY);
    if !allowed.value { return No; }
    m.SmartCreateDummyRecord(u.owner, u.actor);
    var r := m.GetRecord(u.owner, u.actor);
    var r';
    if u.store { v, r' := Award(r.value, u.ids); } else { v, r' := Reject(r.value, u.ids); }
    if v.Yes? {
      var stored := StoreRecord(m, u.owner, u.actor, r', was);
      if !stored { v := Threw; }
    }
  }

  // Undoing checks no signature; it never fails on a store the update led to.
  method ActionRevert(m: AuthorityManager, u: Update) returns (v: Verdict)
    requires Normal(m.store)
    modifies m
    ensures v.Yes? <==> Revert(old(m.store), u).Some?
    ensures v.Yes? ==> Revert(old(m.store), u) == Some(m.store)
  {
    ghost var was := m.store;
    NormalHasRecords(was, u.owner, u.actor);
    PutRecord(was, u.owner, u.actor, DUMMY);
    m.SmartCreateDummyRecord(u.owner, u.actor);
    var r := m.GetRecord(u.owner, u.actor);
    var r';
    if u.store { v, r' := Reject(r.value, u.ids); } else { v, r' := Award(r.value, u.ids); }
    if v.Yes? {
      var stored := StoreRecord(m, u.owner, u.actor, r', was);
      if !stored { v := Threw; }
    }
  }
}
