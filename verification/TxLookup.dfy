/** txLookup (core/tx_pool.go): every pooled transaction by hash, split into local and remote ones,
    with a running count of the slots they take. */
module Lookup {
  import opened Basics
  import opened Transactions

  type ByHash = map<Hash, Tx>

  ghost predicate Hashed(m: ByHash) {
    forall h :: h in m ==> m[h].hash == h
  }

  ghost function SlotSum(m: ByHash): nat {
    if m == map[] then 0 else
      var h :| h in m;
      NumSlots(m[h]) + SlotSum(m - {h})
  }

  /** The sum does not depend on the order of summation. */
  lemma {:induction false} SlotSumMinus(m: ByHash, h: Hash)
    requires h in m
    ensures SlotSum(m) == NumSlots(m[h]) + SlotSum(m - {h})
    decreases |m|
  {
    var k :| k in m && SlotSum(m) == NumSlots(m[k]) + SlotSum(m - {k});
    if k != h {
      SlotSumMinus(m - {k}, h);
      SlotSumMinus(m - {h}, k);
      assert m - {k} - {h} == m - {h} - {k};
    }
  }

  lemma SlotSumPlus(m: ByHash, tx: Tx)
    requires tx.hash !in m
    ensures SlotSum(m[tx.hash := tx]) == SlotSum(m) + NumSlots(tx)
  {
    SlotSumMinus(m[tx.hash := tx], tx.hash);
    assert m[tx.hash := tx] - {tx.hash} == m;
  }

  /** Both sides are keyed by hash and agree where they overlap, and the count covers their union once. */
  ghost predicate Consistent(slots: int, locals: ByHash, remotes: ByHash) {
    && Hashed(locals) && Hashed(remotes)
    && (forall h :: h in locals && h in remotes ==> locals[h] == remotes[h])
    && slots == SlotSum(remotes + locals)
  }

  lemma AddKeeps(slots: int, locals: ByHash, remotes: ByHash, tx: Tx, local: bool)
    requires Consistent(slots, locals, remotes)
    requires tx.hash in remotes + locals ==> (remotes + locals)[tx.hash] == tx
    ensures var more := if tx.hash in remotes + locals then 0 else NumSlots(tx);
            var locals', remotes' := if local then locals[tx.hash := tx] else locals, if local then remotes else remotes[tx.hash := tx];
            Consistent(slots + more, locals', remotes') && remotes' + locals' == (remotes + locals)[tx.hash := tx]
  {
    hide SlotSum;
    var all := remotes + locals;
    var locals', remotes' := if local then locals[tx.hash := tx] else locals, if local then remotes else remotes[tx.hash := tx];
    if tx.hash in all {
      assert all[tx.hash := tx] == all;
    } else {
      SlotSumPlus(all, tx);
    }
    MergeUpdate(locals, remotes, tx, local);
  }

  lemma MergeUpdate(locals: ByHash, remotes: ByHash, tx: Tx, local: bool)
    requires tx.hash in remotes + locals ==> (remotes + locals)[tx.hash] == tx
    ensures var locals', remotes' := if local then locals[tx.hash := tx] else locals, if local then remotes else remotes[tx.hash := tx];
            remotes' + locals' == (remotes + locals)[tx.hash := tx]
  {
  }

  lemma RemoveKeeps(slots: int, locals: ByHash, remotes: ByHash, hash: Hash)
    requires Consistent(slots, locals, remotes) && hash in remotes + locals
    ensures Consistent(slots - NumSlots((remotes + locals)[hash]), locals - {hash}, remotes - {hash})
    ensures (remotes - {hash}) + (locals - {hash}) == (remotes + locals) - {hash}
  {
    hide SlotSum;
    SlotSumMinus(remotes + locals, hash);
    assert (remotes - {hash}) + (locals - {hash}) == (remotes + locals) - {hash};
  }

  lemma MigrateKeeps(slots: int, locals: ByHash, remotes: ByHash, moved: ByHash)
    requires Consistent(slots, locals, remotes)
    requires moved.Keys <= remotes.Keys && forall h :: h in moved ==> moved[h] == remotes[h]
    ensures Consistent(slots, locals + moved, remotes - moved.Keys)
    ensures (remotes - moved.Keys) + (locals + moved) == remotes + locals
  {
    hide SlotSum;
    MergeMoved(locals, remotes, moved);
  }

  class TxLookup {
    var slots: int
    var locals: ByHash
    var remotes: ByHash

    /** The content of the lookup; a local entry hides a remote one. */
    ghost function All(): ByHash
      reads this
    {
      remotes + locals
    }

    ghost predicate Valid()
      reads this
    {
      Consistent(slots, locals, remotes)
    }

    constructor ()
      ensures Valid() && locals == map[] && remotes == map[]
    {
      slots, locals, remotes := 0, map[], map[];
    }

    method Get(hash: Hash) returns (r: Option<Tx>)
      ensures r == if hash in All() then Some(All()[hash]) else None
    {
      if hash in locals {
        return Some(locals[hash]);
      }
      return if hash in remotes then Some(remotes[hash]) else None;
    }

    /** `Add` of a hash that is already present must be of the same transaction. */
    method Add(tx: Tx, local: bool)
      requires Valid()
      requires tx.hash in All() ==> All()[tx.hash] == tx
      modifies this
      ensures Valid()
      ensures All() == old(All())[tx.hash := tx]
      ensures locals == if local then old(locals)[tx.hash := tx] else old(locals)
      ensures remotes == if local then old(remotes) else old(remotes)[tx.hash := tx]
      ensures slots == old(slots) + (if tx.hash in old(All()) then 0 else NumSlots(tx))
    {
      hide Consistent;
      AddKeeps(slots, locals, remotes, tx, local);
      if tx.hash !in locals && tx.hash !in remotes {
        slots := slots + NumSlots(tx);
      }
      if local {
        locals := locals[tx.hash := tx];
      } else {
        remotes := remotes[tx.hash := tx];
      }
    }

    method Remove(hash: Hash)
      requires Valid()
      modifies this
      ensures Valid()
      ensures All() == old(All()) - {hash}
      ensures locals == old(locals) - {hash} && remotes == old(remotes) - {hash}
      ensures slots == old(slots) - (if hash in old(All()) then NumSlots(old(All())[hash]) else 0)
    {
      hide Consistent;
      if hash !in locals && hash !in remotes {
        assert locals == locals - {hash} && remotes == remotes - {hash};
        assert All() == All() - {hash};
        return;
      }
      var tx := if hash in locals then locals[hash] else remotes[hash];
      RemoveKeeps(slots, locals, remotes, hash);
      slots := slots - NumSlots(tx);
      locals, remotes := locals - {hash}, remotes - {hash};
    }

    /** Moves the remote transactions of the given accounts to the local side. */
    method RemoteToLocals(accounts: set<Address>) returns (migrated: nat)
      requires Valid()
      modifies this
      ensures Valid()
      ensures All() == old(All()) && slots == old(slots)
      ensures remotes == old(remotes) - SentBy(old(remotes), accounts).Keys
      ensures locals == old(locals) + SentBy(old(remotes), accounts)
      ensures migrated == |SentBy(old(remotes), accounts)|
    {
      hide Consistent, Visited, SentBy, Moved;
      migrated := 0;
      var rest := remotes.Keys;
      ghost var locals0, remotes0, moved: ByHash := locals, remotes, map[];
      MigrateStart(locals, remotes, accounts);
      while rest != {}
        invariant slots == old(slots) && rest <= remotes0.Keys && rest !! moved.Keys
        invariant Visited(remotes0, rest, accounts, moved)
        invariant Moved(locals0, remotes0, moved, locals, remotes, migrated)
        decreases rest
      {
        var hash :| hash in rest;
        VisitOne(remotes0, rest, accounts, moved, hash);
        MoveOne(locals0, remotes0, moved, locals, remotes, migrated, hash);
        var tx := remotes[hash];
        if tx.from in accounts {
          locals := locals[hash := tx];
          remotes := remotes - {hash};
          migrated := migrated + 1;
          moved := moved[hash := tx];
        }
        rest := rest - {hash};
      }
      MigrateDone(slots, locals0, remotes0, accounts, moved, locals, remotes, migrated);
    }
  }

  function SentBy(m: ByHash, accounts: set<Address>): ByHash {
    map h | h in m && m[h].from in accounts :: m[h]
  }

  /** `moved` holds the entries of the given accounts among those no longer in `rest`. */
  ghost predicate Visited(m: ByHash, rest: set<Hash>, accounts: set<Address>, moved: ByHash) {
    && (forall h :: h in moved <==> h in m && h !in rest && m[h].from in accounts)
    && (forall h :: h in moved ==> moved[h] == m[h])
  }

  ghost predicate RemotesLeft(remotes0: ByHash, moved: ByHash, remotes: ByHash) {
    && (forall h :: h in remotes <==> h in remotes0 && h !in moved)
    && (forall h :: h in remotes ==> remotes[h] == remotes0[h])
  }

  ghost predicate LocalsGot(locals0: ByHash, moved: ByHash, locals: ByHash) {
    && (forall h :: h in locals <==> h in locals0 || h in moved)
    && (forall h :: h in locals ==> locals[h] == if h in moved then moved[h] else locals0[h])
  }

  ghost predicate Moved(locals0: ByHash, remotes0: ByHash, moved: ByHash, locals: ByHash, remotes: ByHash, migrated: nat) {
    migrated == |moved| && RemotesLeft(remotes0, moved, remotes) && LocalsGot(locals0, moved, locals)
  }

  lemma MigrateStart(locals: ByHash, remotes: ByHash, accounts: set<Address>)
    ensures Visited(remotes, remotes.Keys, accounts, map[])
    ensures Moved(locals, remotes, map[], locals, remotes, 0)
  {
  }

  lemma VisitOne(m: ByHash, rest: set<Hash>, accounts: set<Address>, moved: ByHash, hash: Hash)
    requires Visited(m, rest, accounts, moved) && hash in rest && hash in m
    ensures Visited(m, rest - {hash}, accounts, if m[hash].from in accounts then moved[hash := m[hash]] else moved)
  {
  }

  lemma MoveOne(locals0: ByHash, remotes0: ByHash, moved: ByHash, locals: ByHash, remotes: ByHash, migrated: nat, hash: Hash)
    requires Moved(locals0, remotes0, moved, locals, remotes, migrated)
    requires hash in remotes0 && hash !in moved
    ensures hash in remotes && remotes[hash] == remotes0[hash]
    ensures var tx := remotes0[hash];
      Moved(locals0, remotes0, moved[hash := tx], locals[hash := tx], remotes - {hash}, migrated + 1)
  {
    var moved' := moved[hash := remotes0[hash]];
    assert moved'.Keys == moved.Keys + {hash};
    OneLeft(remotes0, moved, remotes, hash);
    OneGot(locals0, moved, locals, remotes0[hash], hash);
    hide RemotesLeft, LocalsGot;
  }

  lemma OneLeft(remotes0: ByHash, moved: ByHash, remotes: ByHash, hash: Hash)
    requires RemotesLeft(remotes0, moved, remotes) && hash in remotes0 && hash !in moved
    ensures hash in remotes && remotes[hash] == remotes0[hash]
    ensures RemotesLeft(remotes0, moved[hash := remotes0[hash]], remotes - {hash})
  {
  }

  lemma OneGot(locals0: ByHash, moved: ByHash, locals: ByHash, tx: Tx, hash: Hash)
    requires LocalsGot(locals0, moved, locals) && hash !in moved
    ensures LocalsGot(locals0, moved[hash := tx], locals[hash := tx])
  {
  }

  lemma MovedMaps(locals0: ByHash, remotes0: ByHash, moved: ByHash, locals: ByHash, remotes: ByHash, migrated: nat)
    requires Moved(locals0, remotes0, moved, locals, remotes, migrated)
    ensures remotes == remotes0 - moved.Keys
    ensures locals == locals0 + moved
    ensures migrated == |moved|
  {
  }

  lemma VisitedAll(m: ByHash, accounts: set<Address>, moved: ByHash)
    requires Visited(m, {}, accounts, moved)
    ensures moved == SentBy(m, accounts)
    ensures moved.Keys <= m.Keys && forall h :: h in moved ==> moved[h] == m[h]
  {
  }

  lemma MigrateDone(slots: int, locals0: ByHash, remotes0: ByHash, accounts: set<Address>, moved: ByHash,
                    locals: ByHash, remotes: ByHash, migrated: nat)
    requires Consistent(slots, locals0, remotes0)
    requires Visited(remotes0, {}, accounts, moved) && Moved(locals0, remotes0, moved, locals, remotes, migrated)
    ensures Consistent(slots, locals, remotes) && remotes + locals == remotes0 + locals0
    ensures remotes == remotes0 - SentBy(remotes0, accounts).Keys
    ensures locals == locals0 + SentBy(remotes0, accounts)
    ensures migrated == |SentBy(remotes0, accounts)|
  {
    hide Consistent, Visited, Moved, SentBy;
    VisitedAll(remotes0, accounts, moved);
    MovedMaps(locals0, remotes0, moved, locals, remotes, migrated);
    MigrateKeeps(slots, locals0, remotes0, moved);
  }

  lemma MergeMoved(locals0: ByHash, remotes0: ByHash, moved: ByHash)
    requires moved.Keys <= remotes0.Keys && forall h :: h in moved ==> moved[h] == remotes0[h]
    requires forall h :: h in locals0 && h in remotes0 ==> locals0[h] == remotes0[h]
    ensures (remotes0 - moved.Keys) + (locals0 + moved) == remotes0 + locals0
  {
    var a, b := (remotes0 - moved.Keys) + (locals0 + moved), remotes0 + locals0;
    assert a.Keys == b.Keys;
    forall h | h in a ensures a[h] == b[h] {
    }
  }
}
