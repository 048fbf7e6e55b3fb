/** TxPool (core/tx_pool.go) without processing lists: adding, removing, promoting and demoting transactions. */
module TxPools {
  import opened Basics
  import opened Transactions
  import opened Lookup
  import opened TxLists
  import opened PricedList
  import opened PoolContent
  import SortedMap

  datatype AddResult =
    | Accepted(replaced: bool)
    | AlreadyKnown
    | Invalid
    | Underpriced
    | PoolOverflow
    | ReplaceUnderpriced

  datatype Config = Config(priceBump: nat, accountSlots: nat, globalSlots: nat, accountQueue: nat, globalQueue: nat)

  const DEFAULT_CONFIG := Config(10, 30_000, 240_000, 64, 1024)

  /** A configuration that `sanitize` leaves as it is. */
  type Settings = c: Config |
    c.priceBump >= 1 && c.accountSlots >= 1 && c.globalSlots >= 1 && c.accountQueue >= 1 && c.globalQueue >= 1
    witness DEFAULT_CONFIG

  function Sanitized(c: Config): Settings {
    Config(if c.priceBump < 1 then DEFAULT_CONFIG.priceBump else c.priceBump,
           if c.accountSlots < 1 then DEFAULT_CONFIG.accountSlots else c.accountSlots,
           if c.globalSlots < 1 then DEFAULT_CONFIG.globalSlots else c.globalSlots,
           if c.accountQueue < 1 then DEFAULT_CONFIG.accountQueue else c.accountQueue,
           if c.globalQueue < 1 then DEFAULT_CONFIG.globalQueue else c.globalQueue)
  }

  function EmptyList(strict: bool): ListValue {
    ListValue(strict, map[], 0, 0)
  }

  function ListOf(lists: Lists, a: Address, strict: bool): ListValue {
    if a in lists then lists[a] else EmptyList(strict)
  }

  /** The lists and the lookup at one moment. */
  datatype Content = Content(pending: Lists, queue: Lists, all: ByHash)

  /** What `add` works on after making room: the content, the transactions dropped for it, and the heaps. */
  datatype Room = Room(content: Content, drop: seq<Tx>, remotes: ByHash, heaps: Heaps)

  /** What is dropped to make room: nothing if there is room, else live remote entries until the shortage is met,
      the last of them needed; a forced drop may run out of live entries. */
  ghost predicate Evicted(drop: seq<Tx>, roomy: bool, entries: multiset<Tx>, remotes: ByHash, shortage: int, force: bool) {
    && LiveChoice(drop, entries, remotes)
    && (roomy ==> drop == [])
    && (!roomy ==>
          && (drop != [] ==> SlotTotal(drop[..|drop| - 1]) < shortage)
          && (SlotTotal(drop) >= shortage || (force && forall e :: e in entries && Live(e, remotes) ==> e in drop)))
  }

  /** What making room does: the dropped transactions leave the lookup, and nothing else does. */
  ghost predicate MadeRoom(before: Room, room: Room, roomy: bool, shortage: int, force: bool) {
    && Evicted(room.drop, roomy, before.heaps.Entries(), before.remotes, shortage, force)
    && Cheapest(room.drop, before.heaps, room.heaps)
    && SameLive(before.heaps.Entries(), room.heaps.Entries() + multiset(room.drop), before.remotes)
    && room.content.all == before.content.all - DropHashes(room.drop) && room.remotes == before.remotes - DropHashes(room.drop)
    && ContentOk(room.content.pending, room.content.queue, room.content.all)
  }

  /** Where `add` puts a transaction: over a pending one with its nonce if there is one, else into the queue;
      in either case only if it outbids what it would replace. */
  ghost predicate Placed(before: Content, after: Content, tx: Tx, bump: nat, r: AddResult) {
    var overlaps := tx.nonce in ItemsOf(before.pending, tx.from);
    var l := if overlaps then ListOf(before.pending, tx.from, true) else ListOf(before.queue, tx.from, false);
    && r == (if Accepts(l, tx, bump) then Accepted(tx.nonce in l.items) else ReplaceUnderpriced)
    && after == if !Accepts(l, tx, bump) then before
                else if overlaps then Content(before.pending[tx.from := Added(l, tx)], before.queue, LookupAfter(before.all, l, tx, true, true))
                else Content(before.pending, before.queue[tx.from := Added(l, tx)], LookupAfter(before.all, l, tx, true, true))
  }

  /** The transaction behind each hash: hashes are content addresses. */
  type Book = Hash -> Tx

  /** The book, the transactions ever entered, and whether no live one has two heap entries. */
  datatype Ledger = Ledger(book: Book, ever: set<Tx>, single: bool)

  /** Heap entries and remote transactions are those of the book and were once entered; every remote one outside
      `untracked` has an entry, and only one if the ledger says so. */
  ghost predicate Tracked(g: Ledger, entries: multiset<Tx>, remotes: ByHash, untracked: set<Hash>) {
    && (forall e :: e in entries ==> g.book(e.hash) == e && e in g.ever)
    && (forall h :: h in remotes ==> g.book(h) == remotes[h] && remotes[h] in g.ever)
    && (forall h :: h in remotes && h !in untracked ==> remotes[h] in entries)
    && (g.single ==> UniqueLive(entries, remotes))
  }

  /** At most one heap entry per remote transaction. */
  ghost predicate UniqueLive(entries: multiset<Tx>, remotes: ByHash) {
    forall e :: Live(e, remotes) ==> entries[e] <= 1
  }

  lemma TrackedFewer(g: Ledger, entries: multiset<Tx>, remotes: ByHash, remotes': ByHash, untracked: set<Hash>)
    requires Tracked(g, entries, remotes, untracked)
    requires forall h :: h in remotes' ==> h in remotes && remotes'[h] == remotes[h]
    ensures Tracked(g, entries, remotes', untracked)
  {
  }

  lemma TrackedStill(g: Ledger, g': Ledger, entries: multiset<Tx>, remotes: ByHash, untracked: set<Hash>)
    requires Tracked(g, entries, remotes, untracked) && g'.book == g.book && g.ever <= g'.ever && (g'.single ==> g.single)
    ensures Tracked(g', entries, remotes, untracked)
  {
    hide UniqueLive;
  }

  /** A rebuild makes good whatever the ledger said of double entries. */
  lemma OnceIsTracked(g0: Ledger, g: Ledger, before: multiset<Tx>, entries: multiset<Tx>, remotes: ByHash, untracked: set<Hash>)
    requires TracksOnce(entries, remotes) && Hashed(remotes) && Tracked(g0, before, remotes, untracked)
    requires g.book == g0.book && g.ever == g0.ever
    ensures Tracked(g, entries, remotes, untracked)
  {
    forall h | h in remotes ensures remotes[h] in entries {
      assert entries[remotes[h]] == 1;
    }
  }

  lemma OnceIsUnique(entries: multiset<Tx>, remotes: ByHash)
    requires TracksOnce(entries, remotes)
    ensures UniqueLive(entries, remotes)
  {
  }

  lemma ForgetNone(d: Items, m: ByHash, m': ByHash)
    ensures m == m - HashesOf(d - d.Keys) && m' == m' - HashesOf(d - d.Keys)
  {
    assert HashesOf(d - d.Keys) == {};
  }

  lemma ForgetMore(d: Items, rest: set<nat>, n: nat, m: ByHash)
    requires n in rest && n in d
    ensures m - HashesOf(d - (rest - {n})) == (m - HashesOf(d - rest)) - {d[n].hash}
  {
    var before, after := d - rest, d - (rest - {n});
    forall h ensures h in HashesOf(after) <==> h in HashesOf(before) || h == d[n].hash {
      if h in HashesOf(before) {
        var k :| k in before && before[k].hash == h;
        assert k in after && after[k].hash == h;
      }
      if h in HashesOf(after) {
        var k :| k in after && after[k].hash == h;
        assert k != n ==> k in before && before[k].hash == h;
      }
      assert n in after && after[n].hash == d[n].hash;
    }
    assert HashesOf(after) == HashesOf(before) + {d[n].hash};
  }

  class TxPool {
    const config: Settings
    const all: TxLookup
    const priced: TxPricedList
    var locals: set<Address>
    var pending: Lists
    var queue: Lists
    var pendingNonces: map<Address, nat>
    var beats: map<Address, nat>
    var changesSinceReorg: nat
    // The chain state the pool was last reset to.
    var stateNonce: Address -> nat
    var stateBalance: Address -> nat
    var maxGas: nat
    /** Hashes taken off the price heaps and about to be removed; empty between operations. */
    ghost var untracked: set<Hash>
    ghost const book: Book
    /** Every transaction `Add` came to place so far; all heap entries are among them. */
    ghost var ever: set<Tx>
    /** While set, no remote transaction has two heap entries. Only `Add` can clear it, a new base fee sets it. */
    ghost var single: bool
    /** While set, no transaction was ever entered with an old heap entry left. Only `Add` can clear it. */
    ghost var neverTwice: bool
    /** While set, the slots are within the two global limits. Only `Add` can clear it. */
    ghost var bounded: bool

    ghost function Sheet(): Ledger
      reads this`ever, this`single
    {
      Ledger(book, ever, single)
    }

    function Limit(): nat {
      config.globalSlots + config.globalQueue
    }

    ghost function Now(): Content
      reads this`pending, this`queue, all
    {
      Content(pending, queue, all.All())
    }

    ghost function View(): Room
      reads this`pending, this`queue, all, priced
    {
      Room(Now(), [], all.remotes, priced.State())
    }

    ghost predicate LookupOk()
      reads this`untracked, this`ever, this`single, this`neverTwice, this`bounded, all, priced
    {
      && priced.all == all && all.Valid() && priced.Valid()
      && all.locals.Keys !! all.remotes.Keys
      && Tracked(Sheet(), priced.Entries(), all.remotes, untracked)
      && (neverTwice ==> single) && (bounded ==> all.slots <= Limit())
    }

    ghost predicate Sound()
      reads this, all, priced
    {
      && LookupOk()
      && ListsOk(pending, true) && ListsOk(queue, false)
      && ContentOk(pending, queue, all.All())
    }

    ghost predicate Valid()
      reads this, all, priced
    {
      Sound() && untracked == {}
    }

    constructor (config: Config, stateNonce: Address -> nat, stateBalance: Address -> nat, maxGas: nat, ghost book: Book)
      ensures Valid() && fresh(all) && fresh(priced)
      ensures this.config == Sanitized(config) && this.book == book && pending == map[] && queue == map[] && all.All() == map[]
      ensures single && neverTwice && bounded && ever == {} && locals == {} && changesSinceReorg == 0
      ensures priced.State() == Heaps(multiset{}, multiset{}, 0, None)
    {
      this.config, this.book := Sanitized(config), book;
      this.stateNonce, this.stateBalance, this.maxGas := stateNonce, stateBalance, maxGas;
      locals, pending, queue, pendingNonces, beats, changesSinceReorg := {}, map[], map[], map[], map[], 0;
      untracked, ever, single, neverTwice, bounded := {}, {}, true, true, true;
      var lookup := new TxLookup();
      all := lookup;
      priced := new TxPricedList(lookup);
    }

    lemma AllHashed()
      requires LookupOk()
      ensures Hashed(all.All())
    {
    }

    lemma ContentFacts()
      requires Sound()
      ensures forall tx: Tx ::
        (tx.hash in all.All() && all.All()[tx.hash] == tx) <==> Listed(ItemsOf(pending, tx.from), tx) || Listed(ItemsOf(queue, tx.from), tx)
      ensures forall a: Address :: ItemsOf(pending, a).Keys !! ItemsOf(queue, a).Keys
    {
      hide TxPool.LookupOk, ContentOk, ListsOk, TxLookup.All, Listed, ItemsOf;
      AllHashed();
      forall tx: Tx ensures
        (tx.hash in all.All() && all.All()[tx.hash] == tx) <==> Listed(ItemsOf(pending, tx.from), tx) || Listed(ItemsOf(queue, tx.from), tx) {
        LookupExact(pending, queue, all.All(), tx);
      }
      NoncesApart(pending, queue, all.All());
    }

    /** What the ledger promises. Of the operations only `Add` and `ResetBaseFee` write these flags. */
    lemma LedgerFacts()
      requires Valid()
      ensures neverTwice ==> single
      ensures single ==> UniqueLive(priced.Entries(), all.remotes)
      ensures bounded ==> all.slots <= Limit()
    {
    }

    /** The state half of `reset`: a new chain head, and the virtual nonces forgotten. */
    method ResetState(nonce: Address -> nat, balance: Address -> nat, gas: nat)
      requires Valid()
      modifies this`stateNonce, this`stateBalance, this`maxGas, this`pendingNonces
      ensures Valid() && stateNonce == nonce && stateBalance == balance && maxGas == gas && pendingNonces == map[]
    {
      hide TxPool.LookupOk, ListsOk, ContentOk;
      stateNonce, stateBalance, maxGas, pendingNonces := nonce, balance, gas, map[];
    }

    method ResetCounter()
      requires Valid()
      modifies this`changesSinceReorg
      ensures Valid() && changesSinceReorg == 0
    {
      changesSinceReorg := 0;
    }

    method ResetBaseFee(fee: nat)
      requires Valid()
      modifies priced, this`single
      ensures Valid() && single && TracksOnce(priced.Entries(), all.remotes) && UniqueLive(priced.Entries(), all.remotes)
      ensures priced.baseFee == Some(fee)
    {
      hide Tracked, ContentOk, ListsOk, TracksOnce, TxLookup.All, UniqueLive;
      ghost var g, before := Sheet(), priced.Entries();
      priced.SetBaseFee(fee);
      single := true;
      OnceIsTracked(g, Sheet(), before, priced.Entries(), all.remotes, untracked);
      OnceIsUnique(priced.Entries(), all.remotes);
    }

    /** Takes transactions out of the lookup (the repeated `all.Remove` loops). */
    method Forget(d: Items)
      requires LookupOk()
      modifies all
      ensures LookupOk()
      ensures all.All() == old(all.All()) - HashesOf(d)
      ensures all.remotes == old(all.remotes) - HashesOf(d)
    {
      hide TxPool.LookupOk, HashesOf, TxLookup.All;
      var rest := d.Keys;
      ForgetNone(d, all.All(), all.remotes);
      while rest != {}
        invariant LookupOk() && rest <= d.Keys
        invariant all.All() == old(all.All()) - HashesOf(d - rest)
        invariant all.remotes == old(all.remotes) - HashesOf(d - rest)
        decreases rest
      {
        var n :| n in rest;
        ForgetMore(d, rest, n, old(all.All()));
        ForgetMore(d, rest, n, old(all.remotes));
        RemoveOne(d[n].hash);
        rest := rest - {n};
      }
      assert d - {} == d;
    }

    method RemoveOne(hash: Hash)
      requires LookupOk()
      modifies all
      ensures LookupOk()
      ensures all.All() == old(all.All()) - {hash}
      ensures all.remotes == old(all.remotes) - {hash}
      ensures all.slots <= old(all.slots)
    {
      hide Tracked;
      TrackedFewer(Sheet(), priced.Entries(), all.remotes, all.remotes - {hash}, untracked);
      all.Remove(hash);
    }

    method CountRemoved(count: int)
      requires LookupOk()
      modifies priced
      ensures LookupOk()
      ensures AfterRemoved(old(priced.State()), count, priced.State(), all.remotes)
    {
      hide Tracked, TracksOnce;
      ghost var before := priced.Entries();
      priced.Removed(count);
      if TracksOnce(priced.Entries(), all.remotes) {
        OnceIsTracked(Sheet(), Sheet(), before, priced.Entries(), all.remotes, untracked);
      }
    }

    /** Takes a replaced transaction out. */
    method Supersede(hash: Hash)
      requires LookupOk()
      modifies all, priced
      ensures LookupOk()
      ensures all.All() == old(all.All()) - {hash} && all.remotes == old(all.remotes) - {hash} && all.slots <= old(all.slots)
      ensures AfterRemoved(old(priced.State()), 1, priced.State(), all.remotes)
    {
      hide TxPool.LookupOk;
      RemoveOne(hash);
      CountRemoved(1);
    }

    /** Whether a new transaction may be entered under the ledger: it has no heap entry left, or the heaps are
        rebuilt for the one it replaces. */
    ghost predicate CanEnter(tx: Tx, local: bool, replacing: bool)
      reads this`ever, this`single, this`neverTwice, this`bounded, all, priced
    {
      && tx.hash !in all.All() && book(tx.hash) == tx
      && (bounded ==> all.slots + NumSlots(tx) <= Limit())
      && (!local ==> tx in ever && (single ==> NoOldEntry(tx, priced.State(), replacing)))
    }

    /** Enters a new transaction into the lookup and, if remote, the price heaps. */
    method Admit(tx: Tx, local: bool)
      requires LookupOk() && CanEnter(tx, local, false)
      modifies all, priced
      ensures LookupOk()
      ensures all.All() == old(all.All())[tx.hash := tx]
      ensures all.remotes == if local then old(all.remotes) else old(all.remotes)[tx.hash := tx]
      ensures priced.State() == if local then old(priced.State()) else old(priced.State()).(urgent := old(priced.State()).urgent + multiset{tx})
    {
      hide Tracked, Consistent;
      if !local {
        TrackedMore(Sheet(), priced.Entries(), all.remotes, tx, untracked);
      }
      all.Add(tx, local);
      priced.Put(tx, local);
    }

    /** Takes out what `tx` replacing, if anything, and enters `tx`. */
    method Exchange(prior: Option<Hash>, tx: Tx, local: bool)
      requires LookupOk() && CanEnter(tx, local, prior.Some?)
      modifies all, priced
      ensures LookupOk()
      ensures all.All() == (if prior.Some? then old(all.All()) - {prior.value} else old(all.All()))[tx.hash := tx]
      ensures if local then tx.hash !in all.remotes
              else Entered(old(priced.State()), old(all.remotes), prior.Some?, tx, priced.State(), all.remotes)
    {
      hide TxPool.LookupOk, AfterRemoved, Entered, TxLookup.All;
      if prior.Some? {
        ghost var h0 := priced.State();
        Supersede(prior.value);
        OldEntryGone(h0, priced.State(), all.remotes, tx);
      }
      AllKnown();
      ghost var mid, remotes := priced.State(), all.remotes;
      Admit(tx, local);
      if !local {
        EnteredFacts(old(priced.State()), old(all.remotes), prior.Some?, tx, mid, remotes);
      }
    }

    lemma AllKnown()
      requires LookupOk()
      ensures forall h :: h in all.remotes ==> h in all.All()
    {
    }

    method EnqueueTx(tx: Tx, local: bool, addAll: bool, now: nat) returns (inserted: bool, replaced: bool)
      requires LookupOk()
      requires addAll && Accepts(ListOf(queue, tx.from, false), tx, config.priceBump) ==>
        CanEnter(tx, local, tx.nonce in ListOf(queue, tx.from, false).items)
      modifies this`queue, this`beats, all, priced
      ensures LookupOk()
      ensures var l := ListOf(old(queue), tx.from, false);
              && inserted == Accepts(l, tx, config.priceBump)
              && replaced == (inserted && tx.nonce in l.items)
              && queue == old(queue)[tx.from := if inserted then Added(l, tx) else l]
              && all.All() == LookupAfter(old(all.All()), l, tx, inserted, addAll)
      ensures beats == if inserted && tx.from !in old(beats) then old(beats)[tx.from := now] else old(beats)
      ensures !replaced && !addAll ==> unchanged(all) && unchanged(priced)
      ensures !inserted ==> unchanged(all) && unchanged(priced)
      ensures inserted && addAll ==>
        if local then tx.hash !in all.remotes
        else Entered(old(priced.State()), old(all.remotes), replaced, tx, priced.State(), all.remotes)
    {
      hide TxPool.LookupOk, Added, Accepts, Entered, AfterRemoved, TxPool.CanEnter;
      var l := ListOf(queue, tx.from, false);
      queue := queue[tx.from := l];
      inserted := Accepts(l, tx, config.priceBump);
      replaced := false;
      if !inserted {
        return;
      }
      queue := queue[tx.from := Added(l, tx)];
      replaced := tx.nonce in l.items;
      if addAll {
        Exchange(if replaced then Some(l.items[tx.nonce].hash) else None, tx, local);
      } else if replaced {
        Supersede(l.items[tx.nonce].hash);
      }
      if tx.from !in beats {
        beats := beats[tx.from := now];
      }
    }

    /** Puts transactions of one account back into the queue; none of their nonces is queued. */
    method Requeue(a: Address, d: Items, now: nat)
      requires LookupOk() && ListsOk(queue, false)
      requires Owned(a, d) && d.Keys !! ItemsOf(queue, a).Keys
      modifies this`queue, this`beats, all, priced
      ensures LookupOk() && ListsOk(queue, false)
      ensures unchanged(all) && unchanged(priced)
      ensures queue - {a} == old(queue) - {a}
      ensures ItemsOf(queue, a) == old(ItemsOf(queue, a)) + d
    {
      hide TxPool.LookupOk, ListsOk, ItemsOf, Owned, Added, Accepts, TxLookup.All;
      var rest := d.Keys;
      ghost var q0 := queue;
      ghost var Q := ItemsOf(queue, a);
      assert d - d.Keys == map[] && Q + map[] == Q;
      while rest != {}
        invariant LookupOk() && ListsOk(queue, false) && rest <= d.Keys
        invariant unchanged(all) && unchanged(priced)
        invariant queue - {a} == q0 - {a} && ItemsOf(queue, a) == Q + (d - rest)
        decreases rest
      {
        var n :| n in rest;
        ListGrows(queue, false, a, Q, d, rest, n, config.priceBump);
        ghost var before := queue;
        var inserted, replaced := EnqueueTx(d[n], false, false, now);
        assert queue == before[a := Added(ListOf(before, a, false), d[n])];
        rest := rest - {n};
      }
      assert d - {} == d;
    }

    /** Deletes a transaction by hash; what follows it in the pending list goes back to the queue. */
    method RemoveTx(hash: Hash, outofbound: bool, now: nat)
      requires Sound()
      modifies this`pending, this`queue, this`beats, this`pendingNonces, all, priced
      ensures Sound()
      ensures all.All() == old(all.All()) - {hash} && all.remotes == old(all.remotes) - {hash} && all.slots <= old(all.slots)
      ensures hash !in old(all.All()) ==> unchanged(this) && unchanged(all) && unchanged(priced)
      ensures !outofbound ==> unchanged(priced)
      ensures outofbound && hash in old(all.All()) ==>
        AfterRemoved(old(priced.State()), 1, priced.State(), all.remotes)
      ensures hash in old(all.All()) ==>
        var tx := old(all.All())[hash];
        var P, Q := old(ItemsOf(pending, tx.from)), old(ItemsOf(queue, tx.from));
        && pending - {tx.from} == old(pending) - {tx.from} && queue - {tx.from} == old(queue) - {tx.from}
        && (Listed(P, tx) ==>
          && tx.from in pendingNonces && LowestNonce(old(pendingNonces), pendingNonces, stateNonce, tx.from, {tx.nonce})
          && ItemsOf(pending, tx.from) == Below(P, tx.nonce)
          && ItemsOf(queue, tx.from) == Q + AtLeast(P, tx.nonce + 1))
        && (!Listed(P, tx) ==>
          && pending == old(pending) && pendingNonces == old(pendingNonces)
          && Listed(Q, tx) && ItemsOf(queue, tx.from) == Q - {tx.nonce})
    {
      hide TxPool.LookupOk, ListsOk, ContentOk, AccountOk, ItemsOf, Listed, TxLookup.All, Below, AtLeast, Hashed, AfterRemoved, LowestNonce;
      var known := all.Get(hash);
      if known == None {
        NotThere(all.All(), hash);
        AllKnown();
        NotThere(all.remotes, hash);
        return;
      }
      var tx := known.value;
      var a := tx.from;
      ghost var p0, q0, all0 := pending, queue, all.All();
      AllHashed();
      Locate(p0, q0, all0, hash);
      RemoveOne(hash);
      if outofbound {
        CountRemoved(1);
      }
      if a in pending && tx.nonce in pending[a].items {
        DropPending(tx, all0, now);
        return;
      }
      if a in queue {
        DropQueued(tx, all0);
      }
    }

    /** The pending half of `removeTx`; the hash has already left the lookup. */
    method DropPending(tx: Tx, ghost all0: ByHash, now: nat)
      requires LookupOk() && ListsOk(pending, true) && ListsOk(queue, false) && Hashed(all0)
      requires ContentOk(pending, queue, all0) && all.All() == all0 - {tx.hash}
      requires tx.from in pending && tx.nonce in pending[tx.from].items && Listed(ItemsOf(pending, tx.from), tx)
      modifies this`pending, this`queue, this`beats, this`pendingNonces, all, priced
      ensures Sound() && unchanged(all) && unchanged(priced)
      ensures tx.from in pendingNonces && LowestNonce(old(pendingNonces), pendingNonces, stateNonce, tx.from, {tx.nonce})
      ensures pending - {tx.from} == old(pending) - {tx.from} && queue - {tx.from} == old(queue) - {tx.from}
      ensures ItemsOf(pending, tx.from) == Below(old(ItemsOf(pending, tx.from)), tx.nonce)
      ensures ItemsOf(queue, tx.from) == old(ItemsOf(queue, tx.from)) + AtLeast(old(ItemsOf(pending, tx.from)), tx.nonce + 1)
    {
      hide TxPool.LookupOk, ListsOk, ContentOk, ItemsOf, Listed, TxLookup.All, Store, Without, Stranded, Below, AtLeast, Owned;
      var a := tx.from;
      var l := pending[a];
      ghost var p0, q0 := pending, queue;
      UnpendList(p0, q0, all0, tx, l);
      pending := Store(pending, a, Without(l, tx.nonce));
      Requeue(a, Stranded(l, tx.nonce), now);
      LowerNonce(a, tx.nonce);
      UnpendDone(p0, q0, all0, pending, queue, tx);
    }

    /** The queue half of `removeTx`. */
    method DropQueued(tx: Tx, ghost all0: ByHash)
      requires LookupOk() && ListsOk(pending, true) && ListsOk(queue, false) && Hashed(all0)
      requires ContentOk(pending, queue, all0) && all.All() == all0 - {tx.hash}
      requires tx.from in queue && Listed(ItemsOf(queue, tx.from), tx)
      modifies this`queue, this`beats
      ensures Sound()
      ensures queue - {tx.from} == old(queue) - {tx.from}
      ensures ItemsOf(queue, tx.from) == old(ItemsOf(queue, tx.from)) - {tx.nonce}
    {
      hide TxPool.LookupOk, ListsOk, ContentOk, ItemsOf, Listed, TxLookup.All, Store, Without;
      var a := tx.from;
      var l := queue[a];
      UnqueueList(pending, queue, all0, tx, l);
      queue := Store(queue, a, Without(l, tx.nonce));
      if a !in queue {
        beats := beats - {a};
      }
    }

    method PromoteTx(a: Address, tx: Tx, now: nat) returns (inserted: bool)
      requires LookupOk() && tx.from == a
      modifies this`pending, this`pendingNonces, this`beats, all, priced
      ensures LookupOk()
      ensures var l := ListOf(old(pending), a, true);
              && inserted == Accepts(l, tx, config.priceBump)
              && pending == old(pending)[a := if inserted then Added(l, tx) else l]
              && (inserted ==> pendingNonces == old(pendingNonces)[a := tx.nonce + 1] && beats == old(beats)[a := now])
              && all.All() == (if inserted then LookupAfter(old(all.All()), l, tx, true, false) else old(all.All()) - {tx.hash})
              && (tx.nonce !in l.items ==> unchanged(all) && unchanged(priced))
    {
      hide TxPool.LookupOk, Added, Outbids, TxLookup.All, AfterRemoved;
      var l := ListOf(pending, a, true);
      inserted := Accepts(l, tx, config.priceBump);
      pending := pending[a := l];
      if !inserted {
        Supersede(tx.hash);
        return;
      }
      pending := pending[a := Added(l, tx)];
      if tx.nonce in l.items {
        Supersede(l.items[tx.nonce].hash);
      }
      pendingNonces := pendingNonces[a := tx.nonce + 1];
      beats := beats[a := now];
    }

    /** Promotes transactions of one account by increasing nonce; none of their nonces is pending. */
    method PromoteReady(a: Address, d: Items, now: nat) returns (promoted: seq<Tx>)
      requires LookupOk() && ListsOk(pending, true)
      requires Owned(a, d) && d.Keys !! ItemsOf(pending, a).Keys
      modifies this`pending, this`pendingNonces, this`beats, all, priced
      ensures LookupOk() && ListsOk(pending, true)
      ensures unchanged(all) && unchanged(priced)
      ensures pending - {a} == old(pending) - {a}
      ensures ItemsOf(pending, a) == old(ItemsOf(pending, a)) + d
      ensures promoted == Sorted(d) && pendingNonces == NextAfter(old(pendingNonces), a, promoted)
    {
      hide TxPool.LookupOk, NextAfter, Promoting, PromotingAll, ListsOk, Accepts, Added, LookupAfter, TxLookup.All;
      promoted := [];
      var txs := SortedMap.SortByNonce(d);
      ghost var p0, n0, P := pending, pendingNonces, ItemsOf(pending, a);
      PromoteStart(p0, n0, a, d, P, txs);
      var i := 0;
      while i < |txs|
        invariant 0 <= i <= |txs| && LookupOk()
        invariant unchanged(all) && unchanged(priced)
        invariant PromotingAll(p0, n0, a, d, P, txs, i, pending, pendingNonces, promoted)
      {
        PromoteStep(p0, n0, pending, pendingNonces, a, P, d, txs, i, promoted, config.priceBump);
        var inserted := PromoteTx(a, txs[i], now);
        promoted := if inserted then promoted + [txs[i]] else promoted;
        i := i + 1;
      }
      PromoteEnd(p0, n0, a, d, P, txs, pending, pendingNonces, promoted);
    }

    ghost function PromotionOf(a: Address): Promotion
      reads this
      requires a in queue
    {
      Promote(queue[a], stateNonce(a), stateBalance(a), maxGas, NonceOf(pendingNonces, stateNonce, a),
              if a in locals then None else Some(config.accountQueue))
    }

    /** The body of promoteExecutables for one account. */
    method PromoteAccount(a: Address, now: nat) returns (promoted: seq<Tx>, ghost r: Promotion)
      requires Sound() && a in queue
      modifies this`pending, this`queue, this`pendingNonces, this`beats, all, priced
      ensures Sound()
      ensures r == old(PromotionOf(a)) && promoted == Sorted(r.ready)
      ensures pending - {a} == old(pending) - {a} && queue - {a} == old(queue) - {a}
      ensures ItemsOf(pending, a) == old(ItemsOf(pending, a)) + r.ready
      ensures ItemsOf(queue, a) == r.kept.items
      ensures all.All() == AfterPromotion(old(all.All()), r) && pendingNonces == NextAfter(old(pendingNonces), a, promoted)
    {
      var cap := if a in locals then None else Some(config.accountQueue);
      var parts := Promote(queue[a], stateNonce(a), stateBalance(a), maxGas, NonceOf(pendingNonces, stateNonce, a), cap);
      hide TxPool.LookupOk, ContentOk, TxLookup.All, AfterPromotion, Promote, Splits, ListsOk, Store, ItemsOf, Sorted, Owned, NextAfter;
      r := parts;
      PromoteFacts(pending, queue, all.All(), a, parts, stateNonce(a), stateBalance(a), maxGas, NonceOf(pendingNonces, stateNonce, a), cap);
      promoted := ApplyPromotion(a, parts, now);
    }

    method ApplyPromotion(a: Address, r: Promotion, now: nat) returns (promoted: seq<Tx>)
      requires Sound() && Splits(ItemsOf(queue, a), r) && ListsOk(Store(queue, a, r.kept), false)
      requires Owned(a, r.ready) && r.ready.Keys !! ItemsOf(pending, a).Keys
      modifies this`pending, this`queue, this`pendingNonces, this`beats, all, priced
      ensures Sound() && promoted == Sorted(r.ready)
      ensures pending - {a} == old(pending) - {a} && queue - {a} == old(queue) - {a}
      ensures ItemsOf(pending, a) == old(ItemsOf(pending, a)) + r.ready
      ensures ItemsOf(queue, a) == r.kept.items
      ensures all.All() == AfterPromotion(old(all.All()), r) && pendingNonces == NextAfter(old(pendingNonces), a, promoted)
    {
      hide TxPool.LookupOk, ContentOk, TxLookup.All, AfterPromotion, Promote, Splits, ListsOk, Store, ItemsOf, Sorted, Owned, Hashed, NextAfter;
      ghost var p0, q0, all0 := pending, queue, all.All();
      AllHashed();
      promoted := MoveAndForget(a, r, now);
      queue := Store(queue, a, r.kept);
      if a !in queue {
        beats := beats - {a};
      }
      PromoteDone(p0, q0, all0, pending, queue, a, r);
    }

    /** Drops and promotes the parts of a promotion, leaving the queue map for the caller. */
    method MoveAndForget(a: Address, r: Promotion, now: nat) returns (promoted: seq<Tx>)
      requires LookupOk() && ListsOk(pending, true)
      requires Owned(a, r.ready) && r.ready.Keys !! ItemsOf(pending, a).Keys
      modifies this`pending, this`pendingNonces, this`beats, all, priced
      ensures LookupOk() && ListsOk(pending, true)
      ensures pending - {a} == old(pending) - {a}
      ensures ItemsOf(pending, a) == old(ItemsOf(pending, a)) + r.ready
      ensures all.All() == AfterPromotion(old(all.All()), r)
      ensures promoted == Sorted(r.ready) && pendingNonces == NextAfter(old(pendingNonces), a, promoted)
    {
      hide TxPool.LookupOk, HashesOf;
      Forget(r.stale);
      Forget(r.unpayable);
      promoted := PromoteReady(a, r.ready, now);
      Forget(r.over);
      CountRemoved(|r.stale| + |r.unpayable| + |r.over|);
    }

    /** The body of demoteUnexecutables for one account. */
    method DemoteAccount(a: Address, now: nat)
      requires Sound() && a in pending
      modifies this`pending, this`queue, this`beats, all, priced
      ensures Sound()
      ensures pending - {a} == old(pending) - {a} && queue - {a} == old(queue) - {a}
      ensures var r := Demote(old(pending)[a], stateNonce(a), stateBalance(a), maxGas);
        && ItemsOf(pending, a) == r.kept.items
        && ItemsOf(queue, a) == old(ItemsOf(queue, a)) + r.invalid
        && all.All() == AfterDemotion(old(all.All()), r)
    {
      hide TxPool.LookupOk, ContentOk, TxLookup.All, HashesOf, Demote, ListsOk, ItemsOf, Store, Owned;
      var r := Demote(pending[a], stateNonce(a), stateBalance(a), maxGas);
      ghost var p0, q0, all0 := pending, queue, all.All();
      AllHashed();
      DemoteFacts(p0, q0, all0, a, r, stateNonce(a), stateBalance(a), maxGas);
      Forget(r.stale);
      Forget(r.unpayable);
      pending := Store(pending, a, r.kept);
      Requeue(a, r.invalid, now);
      DemoteDone(p0, q0, all0, pending, queue, a, r);
    }

    /** `add`: `valid` is the outcome of validateTx, `room` what was left after making room. */
    method Add(tx: Tx, local: bool, valid: bool, now: nat) returns (r: AddResult, ghost room: Room)
      requires Valid() && book(tx.hash) == tx
      modifies this`pending, this`queue, this`beats, this`pendingNonces, this`locals, this`changesSinceReorg
      modifies this`untracked, this`ever, this`single, this`neverTwice, this`bounded, all, priced
      ensures Valid()
      ensures r == AlreadyKnown <==> tx.hash in old(all.All())
      ensures r == Invalid <==> tx.hash !in old(all.All()) && !valid
      ensures r == Underpriced <==>
        tx.hash !in old(all.All()) && valid && old(ChecksPrice(tx, local)) && old(CheaperThanAll(tx))
      ensures r == PoolOverflow <==>
        && tx.hash !in old(all.All()) && valid && !old(HasRoom(tx)) && !(old(ChecksPrice(tx, local)) && old(CheaperThanAll(tx)))
        && (old(Throttled()) || (old(ChecksPrice(tx, local)) && !old(CanFree(tx))))
      ensures r in {AlreadyKnown, Invalid, Underpriced, PoolOverflow} ==>
        Now() == old(Now()) && locals == old(locals) && changesSinceReorg == old(changesSinceReorg)
      ensures r !in {AlreadyKnown, Invalid, Underpriced, PoolOverflow} ==>
        && Placed(room.content, Now(), tx, config.priceBump, r)
        && MadeRoom(old(View()), room, old(HasRoom(tx)), old(Shortage(tx)), local || tx.from in old(locals))
        && changesSinceReorg == old(changesSinceReorg) + |room.drop|
      ensures old(HasRoom(tx)) ==> room == old(View())
      ensures r == ReplaceUnderpriced ==> (Now() == old(Now()) <==> old(HasRoom(tx)) || !SomeLive(old(priced.Entries()), old(all.remotes)))
      ensures r.Accepted? && old(IsRemote(tx, local)) ==>
        && Entered(room.heaps, room.remotes, r.replaced, tx, priced.State(), all.remotes)
        && (old(UniqueLive(priced.Entries(), all.remotes)) ==>
              && all.slots <= Limit()
              && (UniqueLive(priced.Entries(), all.remotes) <==> NoOldEntry(tx, room.heaps, r.replaced)))
      ensures r.Accepted? && !old(IsRemote(tx, local)) ==> tx.hash !in all.remotes
      ensures locals == old(locals) || (r.Accepted? && local && locals == old(locals) + {tx.from})
      ensures !r.Accepted? ==> all.slots <= old(all.slots)
      ensures if r.Accepted? || r == ReplaceUnderpriced then ever == old(ever) + {tx} && (bounded <==> all.slots <= Limit())
              else ever == old(ever) && bounded == old(bounded)
      ensures var fine := r.Accepted? && old(IsRemote(tx, local)) ==> NoOldEntry(tx, room.heaps, r.replaced);
        single == (old(single) && fine) && neverTwice == (old(neverTwice) && fine)
    {
      hide ContentOk, ListsOk, TxLookup.All, TxPool.LookupOk, UniqueLive, SlotSum, LookupAfter, ItemsOf, Placed, MadeRoom, Entered,
        TxPool.CheaperThanAll, TxPool.CanFree, DropHashes, SomeLive, NoOldEntry;
      room := View();
      var known := all.Get(tx.hash);
      if known.Some? {
        return AlreadyKnown, room;
      }
      var isLocal := local || tx.from in locals;
      if !valid {
        return Invalid, room;
      }
      var refused;
      refused, room := MakeRoom(tx, isLocal, now);
      if refused.Some? {
        return refused.value, room;
      }
      r := Place(tx, local, isLocal, now);
    }

    /** The part of `add` after making room. */
    method Place(tx: Tx, local: bool, isLocal: bool, now: nat) returns (r: AddResult)
      requires Valid() && book(tx.hash) == tx && tx.hash !in all.All() && isLocal == (local || tx.from in locals)
      modifies this`pending, this`queue, this`beats, this`locals, this`ever, this`single, this`neverTwice, this`bounded, all, priced
      ensures Valid() && Placed(old(Now()), Now(), tx, config.priceBump, r)
      ensures r.Accepted? || (r == ReplaceUnderpriced && Now() == old(Now()))
      ensures all.slots <= old(all.slots) + if r.Accepted? then NumSlots(tx) else 0
      ensures r.Accepted? && !isLocal ==>
        && Entered(old(priced.State()), old(all.remotes), r.replaced, tx, priced.State(), all.remotes)
        && (old(UniqueLive(priced.Entries(), all.remotes)) ==>
              (UniqueLive(priced.Entries(), all.remotes) <==> NoOldEntry(tx, old(priced.State()), r.replaced)))
      ensures r.Accepted? && isLocal ==> tx.hash !in all.remotes
      ensures locals == old(locals) || (r.Accepted? && local && locals == old(locals) + {tx.from})
      ensures ever == old(ever) + {tx} && (bounded <==> all.slots <= Limit())
      ensures var fine := r.Accepted? && !isLocal ==> NoOldEntry(tx, old(priced.State()), r.replaced);
        single == (old(single) && fine) && neverTwice == (old(neverTwice) && fine)
    {
      hide ContentOk, ListsOk, TxLookup.All, TxPool.LookupOk, UniqueLive, SlotSum, LookupAfter, Placed, Entered, NoOldEntry, Accepts, Tracked,
        TxPool.CanEnter, TxPool.Target;
      ghost var h0, remotes0 := priced.State(), all.remotes;
      AllKnown();
      Enlist(tx);
      TrackedNow();
      ghost var g := Sheet();
      Prepare(tx, isLocal, tx.nonce in Target(tx).items, Accepts(Target(tx), tx, config.priceBump));
      var overlaps;
      r, overlaps := Insert(tx, isLocal, now);
      if r.Accepted? && !isLocal && UniqueLive(h0.Entries(), remotes0) {
        EnteredUnique(g, h0, remotes0, r.replaced, tx, priced.State(), all.remotes);
      }
      if r.Accepted? && local && tx.from !in locals && !overlaps {
        MarkLocal(tx.from);
      }
      Recount();
    }

    /** The list `tx` goes into. */
    ghost function Target(tx: Tx): ListValue
      reads this`pending, this`queue
    {
      if tx.nonce in ItemsOf(pending, tx.from) then ListOf(pending, tx.from, true) else ListOf(queue, tx.from, false)
    }

    method Insert(tx: Tx, isLocal: bool, now: nat) returns (r: AddResult, overlaps: bool)
      requires Valid() && tx.hash !in all.All()
      requires Accepts(Target(tx), tx, config.priceBump) ==> CanEnter(tx, isLocal, tx.nonce in Target(tx).items)
      modifies this`pending, this`queue, this`beats, all, priced
      ensures Valid() && Placed(old(Now()), Now(), tx, config.priceBump, r)
      ensures r == if Accepts(old(Target(tx)), tx, config.priceBump) then Accepted(tx.nonce in old(Target(tx)).items) else ReplaceUnderpriced
      ensures !r.Accepted? ==> Now() == old(Now())
      ensures all.slots <= old(all.slots) + if r.Accepted? then NumSlots(tx) else 0
      ensures r.Accepted? ==>
        if isLocal then tx.hash !in all.remotes
        else Entered(old(priced.State()), old(all.remotes), r.replaced, tx, priced.State(), all.remotes)
    {
      hide ContentOk, ListsOk, TxLookup.All, TxPool.LookupOk, SlotSum, LookupAfter, Placed, Entered, Accepts, TxPool.CanEnter;
      ghost var before := Now();
      LookupFacts();
      overlaps := tx.from in pending && tx.nonce in pending[tx.from].items;
      if overlaps {
        r := ReplacePending(tx, isLocal, now);
      } else {
        NotPending(pending, tx);
        r := AddToQueue(tx, isLocal, now);
      }
      PlacedFacts(before, Now(), tx, config.priceBump, r);
      LookupFacts();
    }

    predicate HasRoom(tx: Tx)
      reads all
    {
      all.slots + NumSlots(tx) <= Limit()
    }

    /** How many slots must be freed for `tx`. */
    function Shortage(tx: Tx): int
      reads all
    {
      all.slots - Limit() + NumSlots(tx)
    }

    predicate IsRemote(tx: Tx, local: bool)
      reads this`locals
    {
      !local && tx.from !in locals
    }

    /** A remote transaction that finds the pool full must not be underpriced. */
    predicate ChecksPrice(tx: Tx, local: bool)
      reads this`locals, all
    {
      !HasRoom(tx) && IsRemote(tx, local)
    }

    predicate Throttled()
      reads this`changesSinceReorg
    {
      changesSinceReorg > config.globalSlots / 4
    }

    /** The live heap entries together take as many slots as are missing. */
    ghost predicate CanFree(tx: Tx)
      reads all, priced
    {
      Enough(priced.Entries(), all.remotes, Shortage(tx))
    }

    /** Some remote transaction is tracked, and none in either heap is strictly cheaper than `tx`. */
    ghost predicate CheaperThanAll(tx: Tx)
      reads all, priced
    {
      && SomeLive(priced.Entries(), all.remotes)
      && NoneCheaper(priced.baseFee, multiset(priced.urgent), tx, all.remotes)
      && NoneCheaper(None, multiset(priced.floating), tx, all.remotes)
    }

    /** Makes an account local and moves its remote transactions over. */
    method MarkLocal(a: Address)
      requires Valid()
      modifies this`locals, all, priced
      ensures Valid() && locals == old(locals) + {a} && all.All() == old(all.All()) && all.slots == old(all.slots)
      ensures all.remotes == old(all.remotes) - SentBy(old(all.remotes), locals).Keys
      ensures all.locals == old(all.locals) + SentBy(old(all.remotes), locals)
    {
      hide ContentOk, ListsOk, TxPool.LookupOk, TxLookup.All, SentBy;
      locals := locals + {a};
      var migrated := Migrate();
      CountRemoved(migrated);
    }

    method Migrate() returns (migrated: nat)
      requires LookupOk()
      modifies all
      ensures LookupOk() && all.All() == old(all.All()) && all.slots == old(all.slots)
      ensures all.remotes == old(all.remotes) - SentBy(old(all.remotes), locals).Keys
      ensures all.locals == old(all.locals) + SentBy(old(all.remotes), locals)
    {
      hide Tracked, Consistent, SentBy;
      ghost var moved := SentBy(all.remotes, locals);
      StillApart(all.locals, all.remotes, locals);
      TrackedFewer(Sheet(), priced.Entries(), all.remotes, all.remotes - moved.Keys, untracked);
      migrated := all.RemoteToLocals(locals);
    }

    /** Replaces a pending transaction with the same nonce. */
    method ReplacePending(tx: Tx, isLocal: bool, now: nat) returns (r: AddResult)
      requires Valid() && tx.hash !in all.All()
      requires tx.from in pending && tx.nonce in pending[tx.from].items
      requires Accepts(pending[tx.from], tx, config.priceBump) ==> CanEnter(tx, isLocal, true)
      modifies this`pending, this`beats, all, priced
      ensures Valid() && Placed(old(Now()), Now(), tx, config.priceBump, r)
      ensures r == ReplaceUnderpriced ==> unchanged(priced) && unchanged(all)
      ensures r.Accepted? ==>
        if isLocal then tx.hash !in all.remotes
        else Entered(old(priced.State()), old(all.remotes), r.replaced, tx, priced.State(), all.remotes)
    {
      hide ContentOk, ListsOk, TxLookup.All, TxPool.LookupOk, Added, TxPool.CanEnter, Entered;
      var l := pending[tx.from];
      if !Accepts(l, tx, config.priceBump) {
        return ReplaceUnderpriced;
      }
      AllHashed();
      ReplaceDone(pending, queue, all.All(), tx);
      pending := pending[tx.from := Added(l, tx)];
      Exchange(Some(l.items[tx.nonce].hash), tx, isLocal);
      beats := beats[tx.from := now];
      return Accepted(true);
    }

    /** Puts a new transaction into the queue. */
    method AddToQueue(tx: Tx, isLocal: bool, now: nat) returns (r: AddResult)
      requires Valid() && tx.hash !in all.All() && tx.nonce !in ItemsOf(pending, tx.from)
      requires Accepts(ListOf(queue, tx.from, false), tx, config.priceBump) ==>
        CanEnter(tx, isLocal, tx.nonce in ListOf(queue, tx.from, false).items)
      modifies this`queue, this`beats, all, priced
      ensures Valid() && Placed(old(Now()), Now(), tx, config.priceBump, r)
      ensures r == ReplaceUnderpriced ==> unchanged(priced) && unchanged(all)
      ensures r.Accepted? ==>
        if isLocal then tx.hash !in all.remotes
        else Entered(old(priced.State()), old(all.remotes), r.replaced, tx, priced.State(), all.remotes)
    {
      hide ContentOk, ListsOk, TxLookup.All, TxPool.LookupOk, Added, LookupAfter, TxPool.CanEnter, Entered;
      AllHashed();
      EnqueueDone(pending, queue, all.All(), tx);
      var inserted, replaced := EnqueueTx(tx, isLocal, true, now);
      if !inserted {
        assert queue == old(queue);
        return ReplaceUnderpriced;
      }
      return Accepted(replaced);
    }

    /** The ledger is brought up to date before a transaction is entered. */
    ghost method Prepare(tx: Tx, isLocal: bool, replacing: bool, accepted: bool)
      requires Valid() && book(tx.hash) == tx && tx.hash !in all.All() && tx in ever
      modifies this`single, this`neverTwice, this`bounded
      ensures Valid() && (accepted ==> CanEnter(tx, isLocal, replacing))
      ensures var fine := accepted && !isLocal ==> NoOldEntry(tx, priced.State(), replacing);
        single == (old(single) && fine) && neverTwice == (old(neverTwice) && fine)
    {
      hide ContentOk, ListsOk, TxLookup.All, NoOldEntry, Consistent, Tracked;
      ghost var g := Sheet();
      var fine := accepted && !isLocal ==> NoOldEntry(tx, priced.State(), replacing);
      single, neverTwice := single && fine, neverTwice && fine;
      bounded := bounded && all.slots + NumSlots(tx) <= Limit();
      TrackedStill(g, Sheet(), priced.Entries(), all.remotes, untracked);
    }

    ghost method Enlist(tx: Tx)
      requires Valid()
      modifies this`ever
      ensures Valid() && ever == old(ever) + {tx}
    {
      hide ContentOk, ListsOk, TxLookup.All, Consistent, Tracked;
      ghost var g := Sheet();
      ever := ever + {tx};
      TrackedStill(g, Sheet(), priced.Entries(), all.remotes, untracked);
    }

    ghost method Recount()
      requires Valid()
      modifies this`bounded
      ensures Valid() && (bounded <==> all.slots <= Limit())
    {
      hide ContentOk, ListsOk, TxLookup.All, Tracked, Consistent;
      bounded := all.slots <= Limit();
    }

    lemma Untried(tx: Tx)
      requires LookupOk() && tx !in ever
      ensures tx !in priced.Entries()
    {
    }

    lemma TrackedNow()
      requires LookupOk()
      ensures Tracked(Sheet(), priced.Entries(), all.remotes, untracked)
    {
    }

    /** Makes room for `tx` when the pool is full: the slot check of `add`. */
    method MakeRoom(tx: Tx, isLocal: bool, now: nat) returns (refused: Option<AddResult>, ghost room: Room)
      requires Valid()
      modifies this`pending, this`queue, this`beats, this`pendingNonces, this`changesSinceReorg, this`untracked, all, priced
      ensures Valid() && all.slots <= old(all.slots)
      ensures refused.Some? ==> Now() == old(Now()) && changesSinceReorg == old(changesSinceReorg)
      ensures refused in {None, Some(Underpriced), Some(PoolOverflow)}
      ensures old(HasRoom(tx)) ==> refused == None && room == old(View())
      ensures refused == Some(Underpriced) <==> !old(HasRoom(tx)) && !isLocal && old(CheaperThanAll(tx))
      ensures refused == Some(PoolOverflow) <==>
        !old(HasRoom(tx)) && !(!isLocal && old(CheaperThanAll(tx))) && (old(Throttled()) || (!isLocal && !old(CanFree(tx))))
      ensures refused == None ==>
        && room == View().(drop := room.drop)
        && MadeRoom(old(View()), room, old(HasRoom(tx)), old(Shortage(tx)), isLocal)
        && changesSinceReorg == old(changesSinceReorg) + |room.drop|
        && (Now() == old(Now()) <==> old(HasRoom(tx)) || !SomeLive(old(priced.Entries()), old(all.remotes)))
        && all.All().Keys <= old(all.All()).Keys
      ensures old(UniqueLive(priced.Entries(), all.remotes)) ==>
        && UniqueLive(priced.Entries(), all.remotes)
        && (refused == None && !isLocal ==> all.slots + NumSlots(tx) <= Limit())
    {
      hide ContentOk, ListsOk, TxLookup.All, TxPool.LookupOk, UniqueLive, SameLive, DropHashes, TxPool.CheaperThanAll, Enough, Evicted, SomeLive,
        Cheapest;
      room := View();
      ghost var h0, e0, r0, need := priced.State(), priced.Entries(), all.remotes, Shortage(tx);
      if HasRoom(tx) {
        NothingDropped(all.All(), e0, r0, need, isLocal, h0);
        return None, room;
      }
      SameLiveRefl(e0, r0);
      if !isLocal {
        var under := CheckUnderpriced(tx);
        UniqueStays(e0, priced.Entries(), r0, r0);
        if under {
          return Some(Underpriced), room;
        }
      }
      if changesSinceReorg > config.globalSlots / 4 {
        return Some(PoolOverflow), room;
      }
      ghost var e1, h1 := priced.Entries(), priced.State();
      EnoughSame(e0, e1, r0, need);
      var ok;
      ghost var drop;
      ok, drop := DropFor(tx, isLocal, now);
      if !ok {
        return Some(PoolOverflow), room;
      }
      CheapestFrom(drop, h0, h1, priced.State());
      EvictedSame(drop, e0, e1, r0, need, isLocal);
      SameLiveTrans(e0, e1, priced.Entries() + multiset(drop), r0);
      room := View().(drop := drop);
      return None, room;
    }

    /** Drops the cheapest remote transactions until there is room for `tx`. */
    method DropFor(tx: Tx, isLocal: bool, now: nat) returns (ok: bool, ghost drop: seq<Tx>)
      requires Valid() && !HasRoom(tx)
      modifies this`pending, this`queue, this`beats, this`pendingNonces, this`changesSinceReorg, this`untracked, all, priced
      ensures Valid() && priced.Entries() <= old(priced.Entries()) && all.slots <= old(all.slots)
      ensures ok <==> isLocal || old(CanFree(tx))
      ensures !ok ==> Now() == old(Now()) && changesSinceReorg == old(changesSinceReorg)
      ensures ok ==>
        && Evicted(drop, false, old(priced.Entries()), old(all.remotes), old(Shortage(tx)), isLocal)
        && Cheapest(drop, old(priced.State()), priced.State())
        && SameLive(old(priced.Entries()), priced.Entries() + multiset(drop), old(all.remotes))
        && all.All() == old(all.All()) - DropHashes(drop) && all.remotes == old(all.remotes) - DropHashes(drop)
        && changesSinceReorg == old(changesSinceReorg) + |drop|
        && (Now() == old(Now()) <==> !SomeLive(old(priced.Entries()), old(all.remotes)))
      ensures old(UniqueLive(priced.Entries(), all.remotes)) ==>
        && UniqueLive(priced.Entries(), all.remotes)
        && (ok && !isLocal ==> all.slots + NumSlots(tx) <= Limit())
    {
      hide ContentOk, ListsOk, TxLookup.All, TxPool.LookupOk, UniqueLive, SlotTotal, DropHashes, Enough, Evicted, SomeLive, Tracked, LiveChoice, Cheapest, SameLive;
      ghost var g, e0, r0, all0, need := Sheet(), priced.Entries(), all.remotes, all.All(), Shortage(tx);
      TrackedNow();
      LookupFacts();
      var out;
      out, ok := DiscardPriced(all.slots - Limit() + NumSlots(tx), isLocal);
      drop := out;
      if !ok {
        UniqueStays(e0, priced.Entries(), r0, r0);
        EmptyDrop();
        return;
      }
      changesSinceReorg := changesSinceReorg + |out|;
      EvictedFacts(drop, e0, r0, need, isLocal);
      RemoveDropped(out, now);
      FreedSlots(g, all0, r0, e0, drop, need, isLocal);
      UniqueStays(e0, priced.Entries(), r0, all.remotes);
      LookupFacts();
    }

    lemma LookupFacts()
      requires LookupOk()
      ensures all.slots == SlotSum(all.All())
      ensures forall h :: h in all.remotes ==> h in all.All() && all.All()[h] == all.remotes[h]
    {
    }

    method CheckUnderpriced(tx: Tx) returns (under: bool)
      requires Valid()
      modifies priced
      ensures Valid()
      ensures priced.Entries() <= old(priced.Entries())
      ensures multiset(priced.urgent) <= old(multiset(priced.urgent)) && multiset(priced.floating) <= old(multiset(priced.floating))
      ensures priced.baseFee == old(priced.baseFee)
      ensures SameLive(old(priced.Entries()), priced.Entries(), all.remotes)
      ensures under <==> old(CheaperThanAll(tx))
    {
      hide ContentOk, ListsOk, TxLookup.All, Tracked, SomeLive, NoneCheaper;
      ghost var u, f := multiset(priced.urgent), multiset(priced.floating);
      under := priced.Underpriced(tx);
      TrackedSame(Sheet(), u, f, multiset(priced.urgent), multiset(priced.floating), all.remotes);
    }

    /** Takes the cheapest entries off the price heaps; their hashes are untracked until removed. */
    method DiscardPriced(need: int, force: bool) returns (drop: seq<Tx>, ok: bool)
      requires Valid()
      modifies this`untracked, priced
      ensures Sound() && untracked == DropHashes(drop)
      ensures priced.Entries() <= old(priced.Entries())
      ensures SameLive(old(priced.Entries()), priced.Entries() + multiset(drop), all.remotes)
      ensures LiveChoice(drop, old(priced.Entries()), all.remotes)
      ensures ok <==> force || Enough(old(priced.Entries()), all.remotes, need)
      ensures !ok ==> drop == []
      ensures Cheapest(drop, old(priced.State()), priced.State())
      ensures ok && drop != [] ==> SlotTotal(drop[..|drop| - 1]) < need
      ensures ok && SlotTotal(drop) < need ==> force && forall e :: e in old(priced.Entries()) && Live(e, all.remotes) ==> e in drop
    {
      hide ContentOk, ListsOk, TxLookup.All, Tracked, SameLive, SlotTotal, DropHashes, SlotSum, Enough, Cheapest;
      ghost var e0 := priced.Entries();
      drop, ok := priced.Discard(need, force);
      untracked := DropHashes(drop);
      TrackedDiscard(Sheet(), e0, priced.Entries(), drop, all.remotes);
      if ok && SlotTotal(drop) < need {
        AllDropped(e0, priced.Entries(), drop, all.remotes);
      }
    }

    method RemoveDropped(drop: seq<Tx>, now: nat)
      requires Sound() && untracked == DropHashes(drop)
      modifies this`pending, this`queue, this`beats, this`pendingNonces, this`untracked, all
      modifies priced
      ensures Valid() && unchanged(priced)
      ensures all.All() == old(all.All()) - DropHashes(drop) && all.remotes == old(all.remotes) - DropHashes(drop)
      ensures all.slots <= old(all.slots)
      ensures drop == [] ==> Now() == old(Now())
    {
      hide ContentOk, ListsOk, Tracked, DropHashes, Listed, ItemsOf, Below, AtLeast, Consistent;
      ghost var all0, remotes0 := all.All(), all.remotes;
      DropNone(all0);
      DropNone(remotes0);
      var i := 0;
      while i < |drop|
        invariant 0 <= i <= |drop| && Sound() && untracked == DropHashes(drop) && unchanged(priced)
        invariant all.All() == all0 - DropHashes(drop[..i]) && all.remotes == remotes0 - DropHashes(drop[..i])
        invariant all.slots <= old(all.slots) && (i == 0 ==> Now() == old(Now()))
      {
        DropMore(all0, drop, i);
        DropMore(remotes0, drop, i);
        RemoveTx(drop[i].hash, false, now);
        i := i + 1;
      }
      assert drop[..i] == drop;
      TrackedRemoved(Sheet(), priced.Entries(), all.remotes, all.All(), drop, all.locals, all0);
      untracked := {};
    }

    /** Drops capped pending transactions from the lookup and pulls the account nonce back to them. */
    method ForgetCapped(a: Address, caps: Items)
      requires LookupOk()
      modifies this`pendingNonces, all, priced
      ensures LookupOk()
      ensures all.All() == old(all.All()) - HashesOf(caps)
      ensures LowestNonce(old(pendingNonces), pendingNonces, stateNonce, a, caps.Keys)
    {
      hide TxPool.LookupOk, HashesOf, LowestNonce;
      Forget(caps);
      LowerTo(a, caps.Keys);
      CountRemoved(|caps|);
    }

    /** Pulls the account nonce back to every one of `taken`. */
    method LowerTo(a: Address, taken: set<nat>)
      modifies this`pendingNonces
      ensures LowestNonce(old(pendingNonces), pendingNonces, stateNonce, a, taken)
    {
      hide LowestNonce;
      var rest := taken;
      ghost var n0 := pendingNonces;
      LowestNone(n0, stateNonce, a, taken);
      while rest != {}
        invariant rest <= taken && LowestNonce(n0, pendingNonces, stateNonce, a, taken - rest)
        decreases rest
      {
        var n :| n in rest;
        ghost var was := pendingNonces;
        LowerNonce(a, n);
        LowestMore(n0, was, pendingNonces, stateNonce, a, taken, rest, n);
        rest := rest - {n};
      }
      assert taken - {} == taken;
    }

    /** pendingNonces.setIfGreater: the virtual nonce becomes the larger of the two. */
    method RaiseNonce(a: Address, nonce: nat)
      modifies this`pendingNonces
      ensures a in pendingNonces && SameNonces(old(pendingNonces), pendingNonces, a)
      ensures var was, now := NonceOf(old(pendingNonces), stateNonce, a), pendingNonces[a];
        now >= was && now >= nonce && (now == was || now == nonce)
    {
      if a !in pendingNonces {
        pendingNonces := pendingNonces[a := stateNonce(a)];
      }
      if pendingNonces[a] >= nonce {
        return;
      }
      pendingNonces := pendingNonces[a := nonce];
    }

    /** pendingNonces.setIfLower: the virtual nonce becomes the smaller of the two. */
    method LowerNonce(a: Address, nonce: nat)
      modifies this`pendingNonces
      ensures a in pendingNonces && LowestNonce(old(pendingNonces), pendingNonces, stateNonce, a, {nonce})
    {
      if a !in pendingNonces {
        pendingNonces := pendingNonces[a := stateNonce(a)];
      }
      if pendingNonces[a] <= nonce {
        return;
      }
      pendingNonces := pendingNonces[a := nonce];
    }
  }

  /** The virtual nonces of all other accounts are as before. */
  ghost predicate SameNonces(before: map<Address, nat>, after: map<Address, nat>, a: Address) {
    forall b: Address :: b != a ==> (b in after <==> b in before) && (b in before ==> after[b] == before[b])
  }

  lemma NoncesKept(nonces: map<Address, nat>, a: Address)
    ensures SameNonces(nonces, nonces, a)
  {
  }

  function NonceOf(nonces: map<Address, nat>, fallback: Address -> nat, a: Address): nat {
    if a in nonces then nonces[a] else fallback(a)
  }

  /** The virtual nonce of `a` is the least of what it was and `taken`; the others are as before. */
  ghost predicate LowestNonce(before: map<Address, nat>, after: map<Address, nat>, fallback: Address -> nat, a: Address, taken: set<nat>) {
    var was, now := NonceOf(before, fallback, a), NonceOf(after, fallback, a);
    && SameNonces(before, after, a)
    && now <= was && (forall n :: n in taken ==> now <= n)
    && (now == was || now in taken)
  }

  lemma LowestNone(nonces: map<Address, nat>, fallback: Address -> nat, a: Address, taken: set<nat>)
    ensures LowestNonce(nonces, nonces, fallback, a, taken - taken)
  {
  }

  lemma LowestMore(before: map<Address, nat>, nonces: map<Address, nat>, after: map<Address, nat>, fallback: Address -> nat, a: Address,
                   all: set<nat>, rest: set<nat>, n: nat)
    requires LowestNonce(before, nonces, fallback, a, all - rest) && n in rest && rest <= all
    requires LowestNonce(nonces, after, fallback, a, {n})
    ensures LowestNonce(before, after, fallback, a, all - (rest - {n}))
  {
    assert all - (rest - {n}) == all - rest + {n};
    assert NonceOf(after, fallback, a) <= n by { assert n in {n}; }
  }

  /** The virtual nonces once `promoted` has become pending. */
  function NextAfter(nonces: map<Address, nat>, a: Address, promoted: seq<Tx>): map<Address, nat> {
    if promoted == [] then nonces else nonces[a := promoted[|promoted| - 1].nonce + 1]
  }

  lemma NextStep(nonces: map<Address, nat>, a: Address, promoted: seq<Tx>, tx: Tx)
    ensures NextAfter(nonces, a, promoted)[a := tx.nonce + 1] == NextAfter(nonces, a, promoted + [tx])
  {
  }

  /** One more entry of `d` joins the list of account `a`, which already holds `base` and the entries outside `rest`. */
  lemma ListGrows(lists: Lists, strict: bool, a: Address, base: Items, d: Items, rest: set<nat>, n: nat, bump: nat)
    requires ListsOk(lists, strict) && Owned(a, d) && n in rest && n in d && d.Keys !! base.Keys
    requires ItemsOf(lists, a) == base + (d - rest)
    ensures d[n].from == a
    ensures var l := ListOf(lists, a, strict);
            && Accepts(l, d[n], bump) && d[n].nonce !in l.items
            && ListsOk(lists[a := Added(l, d[n])], strict)
            && lists[a := Added(l, d[n])] - {a} == lists - {a}
            && ItemsOf(lists[a := Added(l, d[n])], a) == base + (d - (rest - {n}))
  {
    var l := ListOf(lists, a, strict);
    AddedKeepsCaps(l, d[n]);
    assert n in Added(l, d[n]).items;
    assert (base + (d - rest))[n := d[n]] == base + (d - (rest - {n}));
  }

  /** The first `i` of the sorted transactions have joined the pending items `P`. */
  ghost predicate Promoting(d: Items, P: Items, txs: seq<Tx>, i: nat, items: Items, promoted: seq<Tx>) {
    txs == Sorted(d) && i <= |txs| && promoted == txs[..i] && items == P + (d - Elements(SortedKeys(d.Keys)[i..]))
  }

  /** The whole state of the promotion loop. */
  ghost predicate PromotingAll(p0: Lists, n0: map<Address, nat>, a: Address, d: Items, P: Items, txs: seq<Tx>, i: nat,
                               p: Lists, n: map<Address, nat>, promoted: seq<Tx>) {
    && ListsOk(p, true) && p - {a} == p0 - {a} && n == NextAfter(n0, a, promoted)
    && Promoting(d, P, txs, i, ItemsOf(p, a), promoted)
  }

  lemma PromoteStart(p0: Lists, n0: map<Address, nat>, a: Address, d: Items, P: Items, txs: seq<Tx>)
    requires txs == Sorted(d) && ListsOk(p0, true) && P == ItemsOf(p0, a)
    ensures PromotingAll(p0, n0, a, d, P, txs, 0, p0, n0, [])
  {
    var keys := SortedKeys(d.Keys);
    assert keys[0..] == keys;
    assert d - d.Keys == map[] && P + map[] == P;
  }

  lemma PromoteStep(p0: Lists, n0: map<Address, nat>, lists: Lists, n: map<Address, nat>, a: Address, P: Items, d: Items, txs: seq<Tx>, i: nat,
                    promoted: seq<Tx>, bump: nat)
    requires Owned(a, d) && d.Keys !! P.Keys
    requires i < |txs| && PromotingAll(p0, n0, a, d, P, txs, i, lists, n, promoted)
    ensures txs[i].from == a
    ensures var l := ListOf(lists, a, true);
            && Accepts(l, txs[i], bump) && txs[i].nonce !in l.items
            && PromotingAll(p0, n0, a, d, P, txs, i + 1, lists[a := Added(l, txs[i])], n[a := txs[i].nonce + 1], promoted + [txs[i]])
  {
    hide Sorted, SortedKeys, ListsOk, Accepts, Added, Elements, NextAfter;
    NextStep(n0, a, promoted, txs[i]);
    SortedMap.SortedEnumerates(d);
    var keys := SortedKeys(d.Keys);
    assert txs[i] == d[keys[i]] && txs[..i + 1] == txs[..i] + [txs[i]];
    NextKey(keys, i);
    ListGrows(lists, true, a, P, d, Elements(keys[i..]), keys[i], bump);
  }

  lemma NextKey(keys: seq<nat>, i: nat)
    requires Ascending(keys) && i < |keys|
    ensures keys[i] in Elements(keys[i..])
    ensures Elements(keys[i..]) - {keys[i]} == Elements(keys[i + 1..])
  {
    assert keys[i..] == [keys[i]] + keys[i + 1..];
    assert Elements(keys[i..]) == {keys[i]} + Elements(keys[i + 1..]);
    assert keys[i] !in Elements(keys[i + 1..]);
  }

  lemma PromoteEnd(p0: Lists, n0: map<Address, nat>, a: Address, d: Items, P: Items, txs: seq<Tx>,
                   p: Lists, n: map<Address, nat>, promoted: seq<Tx>)
    requires PromotingAll(p0, n0, a, d, P, txs, |txs|, p, n, promoted)
    ensures ItemsOf(p, a) == P + d && promoted == Sorted(d)
    ensures ListsOk(p, true) && p - {a} == p0 - {a} && n == NextAfter(n0, a, promoted)
  {
    hide ListsOk, NextAfter, ItemsOf;
    var keys := SortedKeys(d.Keys);
    assert keys[|txs|..] == [];
    assert Elements(keys[|txs|..]) == {};
    assert d - {} == d;
  }

  /** Where a known transaction sits. */
  lemma Locate(p: Lists, q: Lists, all: ByHash, hash: Hash)
    requires ContentOk(p, q, all) && Hashed(all) && hash in all
    ensures var tx := all[hash];
            var P, Q := ItemsOf(p, tx.from), ItemsOf(q, tx.from);
            && tx.hash == hash
            && AccountOk(tx.from, P, Q, all)
            && (Listed(P, tx) <==> tx.from in p && tx.nonce in p[tx.from].items)
            && (!Listed(P, tx) ==> Listed(Q, tx) && tx.from in q && tx.nonce in q[tx.from].items)
  {
    var tx := all[hash];
    var P, Q := ItemsOf(p, tx.from), ItemsOf(q, tx.from);
    assert AccountOk(tx.from, P, Q, all);
    NonceFindsIt(tx.from, P, Q, all, tx);
  }

  lemma StillApart(locals: ByHash, remotes: ByHash, accounts: set<Address>)
    requires locals.Keys !! remotes.Keys
    ensures (locals + SentBy(remotes, accounts)).Keys !! (remotes - SentBy(remotes, accounts).Keys).Keys
  {
  }

  lemma NotPending(p: Lists, tx: Tx)
    requires !(tx.from in p && tx.nonce in p[tx.from].items)
    ensures tx.nonce !in ItemsOf(p, tx.from)
  {
  }

  /** Entering `tx` in place of an older transaction costs at most its own slots. */
  lemma AddedFacts(all1: ByHash, l: ListValue, tx: Tx)
    requires tx.hash !in all1
    ensures SlotSum(LookupAfter(all1, l, tx, true, true)) <= SlotSum(all1) + NumSlots(tx)
  {
    hide SlotSum;
    var rest := if tx.nonce in l.items then all1 - {l.items[tx.nonce].hash} else all1;
    if tx.nonce in l.items {
      var h := l.items[tx.nonce].hash;
      if h in all1 {
        SlotSumMinus(all1, h);
      } else {
        assert all1 - {h} == all1;
      }
    }
    SlotSumPlus(rest, tx);
  }

  lemma PlacedFacts(before: Content, after: Content, tx: Tx, bump: nat, r: AddResult)
    requires Placed(before, after, tx, bump, r) && tx.hash !in before.all
    ensures r.Accepted? || (r == ReplaceUnderpriced && after == before)
    ensures var l := if tx.nonce in ItemsOf(before.pending, tx.from) then ListOf(before.pending, tx.from, true) else ListOf(before.queue, tx.from, false);
            (r.Accepted? <==> Accepts(l, tx, bump)) && (r.Accepted? ==> r.replaced == (tx.nonce in l.items))
    ensures r.Accepted? ==> SlotSum(after.all) <= SlotSum(before.all) + NumSlots(tx)
  {
    hide SlotSum;
    var l := if tx.nonce in ItemsOf(before.pending, tx.from) then ListOf(before.pending, tx.from, true) else ListOf(before.queue, tx.from, false);
    AddedFacts(before.all, l, tx);
  }

  lemma ReplaceDone(p: Lists, q: Lists, all: ByHash, tx: Tx)
    requires ContentOk(p, q, all) && Hashed(all) && ListsOk(p, true)
    requires tx.from in p && tx.nonce in p[tx.from].items && tx.hash !in all
    ensures var p' := p[tx.from := Added(p[tx.from], tx)];
            && ListsOk(p', true) && ItemsOf(p', tx.from) == ItemsOf(p, tx.from)[tx.nonce := tx]
            && ContentOk(p', q, LookupAfter(all, p[tx.from], tx, true, true))
  {
    var l := p[tx.from];
    var p' := p[tx.from := Added(l, tx)];
    AddedKeepsCaps(l, tx);
    assert tx.nonce in Added(l, tx).items;
    assert AccountOk(tx.from, ItemsOf(p, tx.from), ItemsOf(q, tx.from), all);
    hide AccountOk, SameElsewhere;
    AccountReplace(tx.from, ItemsOf(p, tx.from), ItemsOf(q, tx.from), all, tx);
    OneAccount(p, q, all, p', q, (all - {l.items[tx.nonce].hash})[tx.hash := tx], tx.from);
  }

  lemma EnqueueDone(p: Lists, q: Lists, all: ByHash, tx: Tx)
    requires ContentOk(p, q, all) && Hashed(all) && ListsOk(q, false)
    requires tx.nonce !in ItemsOf(p, tx.from) && tx.hash !in all
    ensures var l := ListOf(q, tx.from, false);
            var q' := q[tx.from := Added(l, tx)];
            && ListsOk(q', false) && ItemsOf(q', tx.from) == ItemsOf(q, tx.from)[tx.nonce := tx]
            && ContentOk(p, q', LookupAfter(all, l, tx, true, true))
  {
    hide AccountOk, SameElsewhere, ListsOk;
    var l := ListOf(q, tx.from, false);
    var q' := q[tx.from := Added(l, tx)];
    EnqueueList(q, tx);
    assert AccountOk(tx.from, ItemsOf(p, tx.from), ItemsOf(q, tx.from), all);
    AccountEnqueue(tx.from, ItemsOf(p, tx.from), ItemsOf(q, tx.from), all, tx);
    OneAccount(p, q, all, p, q', LookupAfter(all, l, tx, true, true), tx.from);
  }

  lemma EnqueueList(q: Lists, tx: Tx)
    requires ListsOk(q, false)
    ensures var l := ListOf(q, tx.from, false);
            var q' := q[tx.from := Added(l, tx)];
            && l.items == ItemsOf(q, tx.from)
            && ListsOk(q', false) && ItemsOf(q', tx.from) == ItemsOf(q, tx.from)[tx.nonce := tx]
  {
    var l := ListOf(q, tx.from, false);
    AddedKeepsCaps(l, tx);
    assert tx.nonce in Added(l, tx).items;
  }

  // ---------- Evicting transactions to make room ----------

  ghost predicate Fewer(m: ByHash, m0: ByHash) {
    forall h :: h in m ==> h in m0 && m[h] == m0[h]
  }

  function DropHashes(drop: seq<Tx>): set<Hash> {
    set tx | tx in drop :: tx.hash
  }

  lemma EmptyDrop()
    ensures DropHashes([]) == {}
  {
  }

  lemma DropNone(m: ByHash)
    ensures m == m - DropHashes([])
    ensures forall drop: seq<Tx> :: drop[..0] == []
  {
  }

  lemma DropMore(m: ByHash, drop: seq<Tx>, i: nat)
    requires i < |drop|
    ensures m - DropHashes(drop[..i + 1]) == (m - DropHashes(drop[..i])) - {drop[i].hash}
  {
    var a, b := drop[..i], drop[..i + 1];
    assert b == a + [drop[i]];
    forall h ensures h in DropHashes(b) <==> h in DropHashes(a) || h == drop[i].hash {
      assert drop[i] in b;
      if h in DropHashes(a) {
        var tx :| tx in a && tx.hash == h;
        assert tx in b;
      }
    }
    assert DropHashes(b) == DropHashes(a) + {drop[i].hash};
  }

  lemma TrackedSame(g: Ledger, u: multiset<Tx>, f: multiset<Tx>, u': multiset<Tx>, f': multiset<Tx>, remotes: ByHash)
    requires Tracked(g, u + f, remotes, {}) && SameLive(u, u', remotes) && SameLive(f, f', remotes)
    requires Hashed(remotes)
    ensures Tracked(g, u' + f', remotes, {}) && SameLive(u + f, u' + f', remotes)
  {
    forall h | h in remotes ensures remotes[h] in u' + f' {
      assert remotes[h] in u + f && Live(remotes[h], remotes);
    }
  }

  lemma TrackedDiscard(g: Ledger, e0: multiset<Tx>, e1: multiset<Tx>, drop: seq<Tx>, remotes: ByHash)
    requires Tracked(g, e0, remotes, {}) && SameLive(e0, e1 + multiset(drop), remotes) && Hashed(remotes)
    ensures Tracked(g, e1, remotes, DropHashes(drop)) && e1 <= e0 && multiset(drop) <= e0
  {
    assert e1 <= e1 + multiset(drop) && multiset(drop) <= e1 + multiset(drop);
    forall h | h in remotes && h !in DropHashes(drop) ensures remotes[h] in e1 {
      var tx := remotes[h];
      assert tx in e0 && Live(tx, remotes);
      assert tx !in drop;
    }
  }

  lemma AllDropped(before: multiset<Tx>, after: multiset<Tx>, drop: seq<Tx>, remotes: ByHash)
    requires SameLive(before, after + multiset(drop), remotes) && after == multiset{}
    ensures forall e :: e in before && Live(e, remotes) ==> e in drop
  {
    forall e | e in before && Live(e, remotes) ensures e in drop {
      assert e in after + multiset(drop);
      assert e in multiset(drop);
    }
  }

  lemma TrackedRemoved(g: Ledger, e: multiset<Tx>, remotes: ByHash, all: ByHash, drop: seq<Tx>, locals: ByHash, all0: ByHash)
    requires Tracked(g, e, remotes, DropHashes(drop)) && all == remotes + locals && all == all0 - DropHashes(drop)
    ensures Tracked(g, e, remotes, {})
  {
    forall h | h in remotes ensures h !in DropHashes(drop) {
      assert h in all;
    }
  }

  lemma {:induction false} SlotSumDrop(m: ByHash, drop: seq<Tx>)
    requires forall i :: 0 <= i < |drop| ==> drop[i].hash in m && m[drop[i].hash] == drop[i]
    requires forall i, j :: 0 <= i < j < |drop| ==> drop[i].hash != drop[j].hash
    ensures SlotSum(m) == SlotSum(m - DropHashes(drop)) + SlotTotal(drop)
    decreases |drop|
  {
    if drop == [] {
      assert DropHashes(drop) == {};
      assert m - {} == m;
    } else {
      var k := |drop| - 1;
      var front := drop[..k];
      SlotSumDrop(m, front);
      DropMore(m, drop, k);
      assert drop[..k + 1] == drop;
      var rest := m - DropHashes(front);
      LastStays(drop, k);
      SlotSumMinus(rest, drop[k].hash);
    }
  }

  lemma LastStays(drop: seq<Tx>, k: nat)
    requires |drop| == k + 1 && forall i, j :: 0 <= i < j < |drop| ==> drop[i].hash != drop[j].hash
    ensures drop[k].hash !in DropHashes(drop[..k])
  {
  }

  lemma DistinctDrop(drop: seq<Tx>, i: nat, j: nat)
    requires i < j < |drop|
    ensures drop[i] == drop[j] ==> multiset(drop)[drop[i]] >= 2
  {
    assert drop == drop[..j] + drop[j..];
    assert drop[i] == drop[..j][i] && drop[i] in drop[..j] && drop[i] in multiset(drop[..j]);
    assert drop[j..][0] == drop[j] && drop[j] in drop[j..] && drop[j] in multiset(drop[j..]);
  }

  lemma UniqueStays(e0: multiset<Tx>, e1: multiset<Tx>, remotes: ByHash, remotes': ByHash)
    requires e1 <= e0 && remotes'.Keys <= remotes.Keys
    ensures UniqueLive(e0, remotes) ==> UniqueLive(e1, remotes')
  {
  }

  lemma NotThere(m: ByHash, hash: Hash)
    requires hash !in m
    ensures m - {hash} == m
  {
  }

  lemma NothingDropped(all: ByHash, entries: multiset<Tx>, remotes: ByHash, shortage: int, force: bool, h: Heaps)
    ensures Evicted([], true, entries, remotes, shortage, force) && Cheapest([], h, h)
    ensures SameLive(entries, entries + multiset([]), remotes)
    ensures all - DropHashes([]) == all && remotes - DropHashes([]) == remotes
  {
  }

  lemma EnoughSame(e0: multiset<Tx>, e1: multiset<Tx>, remotes: ByHash, slots: int)
    requires SameLive(e0, e1, remotes)
    ensures Enough(e0, remotes, slots) <==> Enough(e1, remotes, slots)
  {
    forall s: seq<Tx> ensures LiveChoice(s, e0, remotes) <==> LiveChoice(s, e1, remotes) {
      forall e | e in multiset(s) ensures e in s {
      }
    }
  }

  /** What is dropped, put in terms of the heaps before the price check. */
  lemma EvictedSame(drop: seq<Tx>, e0: multiset<Tx>, e1: multiset<Tx>, remotes: ByHash, shortage: int, force: bool)
    requires SameLive(e0, e1, remotes) && Evicted(drop, false, e1, remotes, shortage, force)
    ensures Evicted(drop, false, e0, remotes, shortage, force)
    ensures SomeLive(e0, remotes) <==> SomeLive(e1, remotes)
  {
    forall e | Live(e, remotes) ensures e in e0 <==> e in e1 {
    }
  }

  lemma SameLiveTrans(a: multiset<Tx>, b: multiset<Tx>, c: multiset<Tx>, remotes: ByHash)
    requires SameLive(a, b, remotes) && SameLive(b, c, remotes)
    ensures SameLive(a, c, remotes)
  {
  }

  lemma EvictedFacts(drop: seq<Tx>, entries: multiset<Tx>, remotes: ByHash, shortage: int, force: bool)
    requires LiveChoice(drop, entries, remotes)
    requires drop != [] ==> SlotTotal(drop[..|drop| - 1]) < shortage
    requires SlotTotal(drop) < shortage ==> force && forall e :: e in entries && Live(e, remotes) ==> e in drop
    ensures Evicted(drop, false, entries, remotes, shortage, force)
  {
  }

  /** What making room frees. */
  lemma FreedSlots(g: Ledger, all: ByHash, remotes: ByHash, entries: multiset<Tx>, drop: seq<Tx>, shortage: int, force: bool)
    requires Tracked(g, entries, remotes, {}) && shortage > 0 && Evicted(drop, false, entries, remotes, shortage, force)
    requires forall h :: h in remotes ==> h in all && all[h] == remotes[h]
    ensures drop == [] <==> !SomeLive(entries, remotes)
    ensures drop == [] <==> all == all - DropHashes(drop)
    ensures UniqueLive(entries, remotes) ==> SlotSum(all) == SlotSum(all - DropHashes(drop)) + SlotTotal(drop)
    ensures SlotTotal(drop) >= shortage || force
  {
    hide SlotSum, Tracked, UniqueLive;
    if drop != [] {
      assert drop[0] in drop && drop[0] in multiset(drop);
      assert drop[0] in entries && Live(drop[0], remotes);
      assert drop[0].hash in DropHashes(drop) && drop[0].hash in all;
    }
    DroppedFree(g, all, drop, entries, remotes);
  }

  /** Dropping distinct live entries frees exactly the slots they take. */
  lemma DroppedFree(g: Ledger, all: ByHash, drop: seq<Tx>, entries: multiset<Tx>, remotes: ByHash)
    requires Tracked(g, entries, remotes, {}) && multiset(drop) <= entries
    requires forall e :: e in drop ==> Live(e, remotes)
    requires forall h :: h in remotes ==> h in all && all[h] == remotes[h]
    ensures Fewer(all - DropHashes(drop), all)
    ensures UniqueLive(entries, remotes) ==> SlotSum(all) == SlotSum(all - DropHashes(drop)) + SlotTotal(drop)
  {
    hide SlotSum, SlotTotal;
    if UniqueLive(entries, remotes) {
      forall i | 0 <= i < |drop| ensures drop[i].hash in remotes && remotes[drop[i].hash] == drop[i] && multiset(drop)[drop[i]] <= 1 {
        assert drop[i] in drop && drop[i] in multiset(drop) && drop[i] in entries;
        assert Live(drop[i], remotes);
      }
      forall i, j | 0 <= i < j < |drop| ensures drop[i].hash != drop[j].hash {
        DistinctDrop(drop, i, j);
      }
      SlotSumDrop(all, drop);
    }
  }

  lemma PromoteFacts(p: Lists, q: Lists, all: ByHash, a: Address, r: Promotion,
                     nonce: nat, balance: nat, maxGas: nat, pendingNonce: nat, cap: Option<nat>)
    requires ContentOk(p, q, all) && ListsOk(q, false) && a in q
    requires r == Promote(q[a], nonce, balance, maxGas, pendingNonce, cap)
    ensures Splits(ItemsOf(q, a), r) && ListsOk(Store(q, a, r.kept), false)
    ensures Owned(a, r.ready) && r.ready.Keys !! ItemsOf(p, a).Keys
  {
    assert AccountOk(a, ItemsOf(p, a), ItemsOf(q, a), all);
    hide Promote, Capped;
    PromotionSplits(q[a], nonce, balance, maxGas, pendingNonce, cap);
    StoreKeeps(q, false, a, r.kept);
  }

  lemma PromoteDone(p: Lists, q: Lists, all: ByHash, p': Lists, q': Lists, a: Address, r: Promotion)
    requires ContentOk(p, q, all) && Hashed(all) && Splits(ItemsOf(q, a), r)
    requires p' - {a} == p - {a} && q' - {a} == q - {a}
    requires ItemsOf(p', a) == ItemsOf(p, a) + r.ready && ItemsOf(q', a) == r.kept.items
    ensures ContentOk(p', q', AfterPromotion(all, r))
  {
    assert AccountOk(a, ItemsOf(p, a), ItemsOf(q, a), all);
    hide AccountOk, SameElsewhere, ItemsOf, Splits, AfterPromotion;
    AccountPromote(a, ItemsOf(p, a), ItemsOf(q, a), all, r);
    ElsewhereSame(p, p', a);
    ElsewhereSame(q, q', a);
    OneAccount(p, q, all, p', q', AfterPromotion(all, r), a);
  }

  lemma DemoteFacts(p: Lists, q: Lists, all: ByHash, a: Address, r: Demotion, nonce: nat, balance: nat, maxGas: nat)
    requires ContentOk(p, q, all) && ListsOk(p, true) && a in p
    requires r == Demote(p[a], nonce, balance, maxGas)
    ensures DemotionSplit(ItemsOf(p, a), r) && ListsOk(Store(p, a, r.kept), true)
    ensures Owned(a, r.invalid) && r.invalid.Keys !! ItemsOf(q, a).Keys
  {
    assert AccountOk(a, ItemsOf(p, a), ItemsOf(q, a), all);
    hide Demote, Capped, GapFree;
    DemotionSplits(p[a], nonce, balance, maxGas);
    StoreKeeps(p, true, a, r.kept);
  }

  lemma DemoteDone(p: Lists, q: Lists, all: ByHash, p': Lists, q': Lists, a: Address, r: Demotion)
    requires ContentOk(p, q, all) && Hashed(all) && DemotionSplit(ItemsOf(p, a), r)
    requires p' - {a} == p - {a} && q' - {a} == q - {a}
    requires ItemsOf(p', a) == r.kept.items && ItemsOf(q', a) == ItemsOf(q, a) + r.invalid
    ensures ContentOk(p', q', AfterDemotion(all, r))
  {
    assert AccountOk(a, ItemsOf(p, a), ItemsOf(q, a), all);
    hide AccountOk, SameElsewhere, ItemsOf, DemotionSplit, AfterDemotion;
    AccountDemote(a, ItemsOf(p, a), ItemsOf(q, a), all, r);
    ElsewhereSame(p, p', a);
    ElsewhereSame(q, q', a);
    OneAccount(p, q, all, p', q', AfterDemotion(all, r), a);
  }

  lemma UnpendList(p: Lists, q: Lists, all: ByHash, tx: Tx, l: ListValue)
    requires ContentOk(p, q, all) && ListsOk(p, true) && tx.from in p && l == p[tx.from] && tx.nonce in l.items
    ensures var P, Q := ItemsOf(p, tx.from), ItemsOf(q, tx.from);
            var p' := Store(p, tx.from, Without(l, tx.nonce));
            && Stranded(l, tx.nonce) == AtLeast(P, tx.nonce + 1)
            && Owned(tx.from, Stranded(l, tx.nonce)) && Stranded(l, tx.nonce).Keys !! Q.Keys
            && ListsOk(p', true) && ItemsOf(p', tx.from) == Below(P, tx.nonce) && p' - {tx.from} == p - {tx.from}
  {
    var P, Q := ItemsOf(p, tx.from), ItemsOf(q, tx.from);
    assert AccountOk(tx.from, P, Q, all);
    RemoveCutsStrict(l, tx.nonce);
    FewerKeepsCaps(l, Below(l.items, tx.nonce));
    StoreKeeps(p, true, tx.from, Without(l, tx.nonce));
  }

  lemma UnpendDone(p: Lists, q: Lists, all: ByHash, p': Lists, q': Lists, tx: Tx)
    requires ContentOk(p, q, all) && Hashed(all) && Listed(ItemsOf(p, tx.from), tx)
    requires p' - {tx.from} == p - {tx.from} && q' - {tx.from} == q - {tx.from}
    requires ItemsOf(p', tx.from) == Below(ItemsOf(p, tx.from), tx.nonce)
    requires ItemsOf(q', tx.from) == ItemsOf(q, tx.from) + AtLeast(ItemsOf(p, tx.from), tx.nonce + 1)
    ensures ContentOk(p', q', all - {tx.hash})
  {
    hide AccountOk, Listed, SameElsewhere, ItemsOf;
    var P, Q := ItemsOf(p, tx.from), ItemsOf(q, tx.from);
    assert AccountOk(tx.from, P, Q, all);
    AccountUnpend(tx.from, P, Q, all, tx);
    ElsewhereSame(p, p', tx.from);
    ElsewhereSame(q, q', tx.from);
    OneAccount(p, q, all, p', q', all - {tx.hash}, tx.from);
  }

  lemma UnqueueList(p: Lists, q: Lists, all: ByHash, tx: Tx, l: ListValue)
    requires ContentOk(p, q, all) && Hashed(all) && ListsOk(q, false) && tx.from in q && l == q[tx.from]
    requires Listed(ItemsOf(q, tx.from), tx)
    ensures var q' := Store(q, tx.from, Without(l, tx.nonce));
            && ListsOk(q', false) && ItemsOf(q', tx.from) == ItemsOf(q, tx.from) - {tx.nonce} && q' - {tx.from} == q - {tx.from}
            && ContentOk(p, q', all - {tx.hash})
  {
    hide AccountOk, SameElsewhere;
    var P, Q := ItemsOf(p, tx.from), ItemsOf(q, tx.from);
    var l' := Without(l, tx.nonce);
    assert l'.items == Q - {tx.nonce};
    var q' := Store(q, tx.from, l');
    FewerKeepsCaps(l, l'.items);
    StoreKeeps(q, false, tx.from, l');
    assert AccountOk(tx.from, P, Q, all);
    AccountUnqueue(tx.from, P, Q, all, tx);
    ElsewhereSame(q, q', tx.from);
    OneAccount(p, q, all, p, q', all - {tx.hash}, tx.from);
  }

  function LookupAfter(all: ByHash, l: ListValue, tx: Tx, inserted: bool, addAll: bool): ByHash {
    if !inserted then all else
      var rest := if tx.nonce in l.items then all - {l.items[tx.nonce].hash} else all;
      if addAll then rest[tx.hash := tx] else rest
  }

  lemma TrackedMore(g: Ledger, entries: multiset<Tx>, remotes: ByHash, tx: Tx, untracked: set<Hash>)
    requires Tracked(g, entries, remotes, untracked) && g.book(tx.hash) == tx && tx in g.ever && (g.single ==> tx !in entries)
    ensures Tracked(g, entries + multiset{tx}, remotes[tx.hash := tx], untracked)
  {
  }

  /** No heap entry of `tx` will be left when it is entered. */
  ghost predicate NoOldEntry(tx: Tx, h: Heaps, replacing: bool) {
    tx !in h.Entries() || (replacing && h.stales + 1 > |h.Entries()| / 4)
  }

  lemma Unentered(tx: Tx, before: Room, room: Room, roomy: bool, shortage: int, force: bool, replacing: bool)
    requires tx !in before.heaps.Entries() && MadeRoom(before, room, roomy, shortage, force)
    ensures NoOldEntry(tx, room.heaps, replacing)
  {
    assert room.heaps.Entries() <= room.heaps.Entries() + multiset(room.drop);
  }

  /** The heaps after entering a remote transaction: its entry on top of what a replacement left. */
  ghost predicate Entered(before: Heaps, remotes0: ByHash, replaced: bool, tx: Tx, after: Heaps, remotes: ByHash) {
    && tx in after.urgent && tx.hash in remotes && remotes[tx.hash] == tx
    && var rest := after.(urgent := after.urgent - multiset{tx});
       if replaced then Fewer(remotes - {tx.hash}, remotes0) && AfterRemoved(before, 1, rest, remotes - {tx.hash})
       else remotes - {tx.hash} == remotes0 && rest == before
  }

  lemma OldEntryGone(before: Heaps, after: Heaps, remotes: ByHash, tx: Tx)
    requires AfterRemoved(before, 1, after, remotes)
    ensures tx.hash !in remotes && NoOldEntry(tx, before, true) ==> tx !in after.Entries()
  {
  }

  lemma EnteredFacts(before: Heaps, remotes0: ByHash, replaced: bool, tx: Tx, mid: Heaps, remotes: ByHash)
    requires tx.hash !in remotes && Fewer(remotes, remotes0)
    requires if replaced then AfterRemoved(before, 1, mid, remotes) else remotes == remotes0 && mid == before
    ensures Entered(before, remotes0, replaced, tx, mid.(urgent := mid.urgent + multiset{tx}), remotes[tx.hash := tx])
  {
    assert mid.urgent + multiset{tx} - multiset{tx} == mid.urgent;
    assert remotes[tx.hash := tx] - {tx.hash} == remotes;
  }

  /** Exactly when no old entry is left, no live transaction has two entries afterwards. */
  lemma EnteredUnique(g: Ledger, before: Heaps, remotes0: ByHash, replaced: bool, tx: Tx, after: Heaps, remotes: ByHash)
    requires Tracked(g, before.Entries(), remotes0, {}) && UniqueLive(before.Entries(), remotes0) && g.book(tx.hash) == tx
    requires Entered(before, remotes0, replaced, tx, after, remotes) && tx.hash !in remotes0
    ensures UniqueLive(after.Entries(), remotes) <==> NoOldEntry(tx, before, replaced)
  {
    hide Tracked;
    var rest := after.(urgent := after.urgent - multiset{tx});
    assert after.urgent == rest.urgent + multiset{tx};
    assert Live(tx, remotes);
    forall e ensures after.Entries()[e] == rest.Entries()[e] + (if e == tx then 1 else 0) {
    }
    RestUnique(g, before, remotes0, replaced, tx, rest, remotes - {tx.hash});
    forall e | Live(e, remotes) && e != tx ensures after.Entries()[e] <= 1 {
      if e.hash != tx.hash {
        assert Live(e, remotes - {tx.hash});
      }
    }
  }

  /** What is left beside the new entry: nothing twice, and an old entry of `tx` only if there was one. */
  lemma RestUnique(g: Ledger, before: Heaps, remotes0: ByHash, replaced: bool, tx: Tx, rest: Heaps, remotes: ByHash)
    requires Tracked(g, before.Entries(), remotes0, {}) && UniqueLive(before.Entries(), remotes0) && g.book(tx.hash) == tx
    requires tx.hash !in remotes0 && Fewer(remotes, remotes0)
    requires if replaced then AfterRemoved(before, 1, rest, remotes) else rest == before
    ensures tx !in rest.Entries() <==> NoOldEntry(tx, before, replaced)
    ensures forall e :: Live(e, remotes) ==> rest.Entries()[e] <= 1
    ensures forall e: Tx :: e.hash == tx.hash && e != tx ==> rest.Entries()[e] == 0
  {
    forall e: Tx | e.hash == tx.hash && e != tx ensures rest.Entries()[e] == 0 {
      assert e in before.Entries() ==> g.book(e.hash) == e;
    }
  }
}
