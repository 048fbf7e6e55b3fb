/** scheduleReorgLoop (core/tx_pool.go): coalescing requests into one background run at a time. */
module Scheduling {
  import opened Basics
  import opened Transactions

  type Head = nat
  /** A done channel; each round uses a new one. */
  type Done = nat

  datatype ResetRequest = ResetRequest(oldHead: Head, newHead: Head)

  /** Everything asked for between two launches, in order. */
  datatype Batch = Batch(resets: seq<ResetRequest>, promotes: seq<set<Address>>, txs: seq<Tx>)

  datatype Request = ResetAsked(done: Done, reset: ResetRequest) | PromoteAsked(done: Done, accounts: set<Address>)

  /** What a background run was launched with, and the batch behind it. */
  datatype RunRecord = RunRecord(done: Done, reset: Option<ResetRequest>, dirty: Option<set<Address>>,
                                 events: map<Address, Items>, batch: Batch)

  // ---------- Coalescing ----------

  /** From the first old head to the last new head. */
  function Span(resets: seq<ResetRequest>): Option<ResetRequest> {
    if resets == [] then None else Some(ResetRequest(resets[0].oldHead, resets[|resets| - 1].newHead))
  }

  function UnionOf(sets: seq<set<Address>>): set<Address> {
    if sets == [] then {} else UnionOf(sets[..|sets| - 1]) + sets[|sets| - 1]
  }

  function Accounts(sets: seq<set<Address>>): Option<set<Address>> {
    if sets == [] then None else Some(UnionOf(sets))
  }

  function PutEvent(events: map<Address, Items>, tx: Tx): map<Address, Items> {
    events[tx.from := (if tx.from in events then events[tx.from] else map[])[tx.nonce := tx]]
  }

  function Queued(txs: seq<Tx>): map<Address, Items> {
    if txs == [] then map[] else PutEvent(Queued(txs[..|txs| - 1]), txs[|txs| - 1])
  }

  predicate Holds(events: map<Address, Items>, tx: Tx) {
    tx.from in events && tx.nonce in events[tx.from] && events[tx.from][tx.nonce] == tx
  }

  /** No later event has the same sender and nonce. */
  ghost predicate NotOverwritten(txs: seq<Tx>, i: nat)
    requires i < |txs|
  {
    forall j :: i < j < |txs| ==> txs[j].from != txs[i].from || txs[j].nonce != txs[i].nonce
  }

  /** The queue holds exactly the events that were not overwritten. */
  lemma {:induction false} QueuedFacts(txs: seq<Tx>, tx: Tx)
    ensures Holds(Queued(txs), tx) <==> LastlyPut(txs, tx)
  {
    if txs != [] {
      var k := |txs| - 1;
      QueuedFacts(txs[..k], tx);
      OneMoreEvent(txs, k, tx);
      var same := txs[k].from == tx.from && txs[k].nonce == tx.nonce;
      assert Holds(Queued(txs), tx) <==> txs[k] == tx || (!same && Holds(Queued(txs[..k]), tx));
    }
  }

  ghost predicate LastlyPut(txs: seq<Tx>, tx: Tx) {
    exists i :: 0 <= i < |txs| && txs[i] == tx && NotOverwritten(txs, i)
  }

  lemma OneMoreEvent(txs: seq<Tx>, k: nat, tx: Tx)
    requires |txs| == k + 1
    ensures LastlyPut(txs, tx) <==>
      txs[k] == tx || (!(txs[k].from == tx.from && txs[k].nonce == tx.nonce) && LastlyPut(txs[..k], tx))
  {
    var front := txs[..k];
    if txs[k] == tx {
      assert NotOverwritten(txs, k);
    }
    if LastlyPut(front, tx) && !(txs[k].from == tx.from && txs[k].nonce == tx.nonce) {
      var i :| 0 <= i < k && front[i] == tx && NotOverwritten(front, i);
      assert txs[i] == tx && NotOverwritten(txs, i);
    }
    if LastlyPut(txs, tx) {
      var i :| 0 <= i < |txs| && txs[i] == tx && NotOverwritten(txs, i);
      if i < k {
        assert front[i] == tx && NotOverwritten(front, i);
      }
    }
  }

  lemma {:induction false} UnionHolds(sets: seq<set<Address>>, s: set<Address>)
    requires s in sets
    ensures s <= UnionOf(sets)
  {
    var k := |sets| - 1;
    if s != sets[k] {
      assert sets == sets[..k] + [sets[k]];
      UnionHolds(sets[..k], s);
    }
  }

  lemma QueuedMore(txs: seq<Tx>, tx: Tx)
    ensures Queued(txs + [tx]) == PutEvent(Queued(txs), tx)
  {
    var more := txs + [tx];
    assert more[..|more| - 1] == txs;
  }

  lemma UnionMore(sets: seq<set<Address>>, s: set<Address>)
    ensures Accounts(sets + [s]) == Some(if sets == [] then s else UnionOf(sets) + s)
  {
    var more := sets + [s];
    assert more[..|more| - 1] == sets;
    assert UnionOf(more) == UnionOf(sets) + s;
    assert sets == [] ==> UnionOf(sets) + s == s;
  }

  ghost predicate Coalesced(r: RunRecord) {
    && r.reset == Span(r.batch.resets) && r.dirty == Accounts(r.batch.promotes) && r.events == Queued(r.batch.txs)
  }

  ghost predicate InBatch(r: Request, b: Batch) {
    match r
    case ResetAsked(_, reset) => reset in b.resets
    case PromoteAsked(_, accounts) => accounts in b.promotes
  }

  /** A run serves a request: its reset spans from the first old head of the batch to the last new head,
      its accounts include those asked for. */
  ghost predicate Serves(run: RunRecord, r: Request) {
    && run.done == r.done && InBatch(r, run.batch)
    && match r
       case ResetAsked(_, reset) => run.batch.resets != [] && run.reset == Span(run.batch.resets)
       case PromoteAsked(_, accounts) => run.dirty.Some? && accounts <= run.dirty.value
  }

  lemma BatchServes(run: RunRecord, r: Request)
    requires Coalesced(run) && run.done == r.done && InBatch(r, run.batch)
    ensures Serves(run, r)
  {
    if r.PromoteAsked? {
      UnionHolds(run.batch.promotes, r.accounts);
    }
  }

  ghost function AllEvents(runs: seq<RunRecord>): seq<Tx> {
    if runs == [] then [] else AllEvents(runs[..|runs| - 1]) + runs[|runs| - 1].batch.txs
  }

  lemma MoreRuns(runs: seq<RunRecord>, run: RunRecord)
    ensures AllEvents(runs + [run]) + [] == AllEvents(runs) + run.batch.txs
  {
    var more := runs + [run];
    assert more[..|more| - 1] == runs;
  }

  lemma EmptyBatch(done: Done)
    ensures Coalesced(RunRecord(done, None, None, map[], NO_BATCH))
  {
  }

  const NO_BATCH := Batch([], [], [])

  // ---------- The loop ----------

  class Scheduler {
    var curDone: Option<Done>
    var nextDone: Done
    var launchNextRun: bool
    var reset: Option<ResetRequest>
    var dirtyAccounts: Option<set<Address>>
    var queuedEvents: map<Address, Items>
    var closed: set<Done>
    var stopped: bool
    // History: the runs launched, what has been asked since the last one, all requests and all queued events.
    // `closings` are the channels closed, in order: closing one twice would panic.
    ghost var runs: seq<RunRecord>
    ghost var closings: seq<Done>
    ghost var batch: Batch
    ghost var requests: seq<Request>
    ghost var events: seq<Tx>

    /** What the next run would be launched with. */
    ghost function Next(): RunRecord
      reads this
    {
      RunRecord(nextDone, reset, dirtyAccounts, queuedEvents, batch)
    }

    ghost predicate RunsOk()
      reads this
    {
      && nextDone == |runs| && (forall j :: 0 <= j < |runs| ==> runs[j].done == j && Coalesced(runs[j]))
      && Coalesced(Next())
      && events == AllEvents(runs) + batch.txs
    }

    ghost predicate ChannelsOk()
      reads this
    {
      && (forall j :: 0 <= j < |runs| && j !in closed ==> curDone == Some(j))
      && (curDone.Some? ==> curDone.value < |runs|)
      && (forall c :: c in closed ==> c < |runs| || (c == nextDone && stopped))
      && NoDup(closings) && Elements(closings) == closed
    }

    ghost predicate RequestsOk()
      reads this
    {
      forall i :: 0 <= i < |requests| ==>
        if 0 <= requests[i].done < |runs| then InBatch(requests[i], runs[requests[i].done].batch)
        else requests[i].done == |runs| && InBatch(requests[i], batch)
    }

    ghost predicate Valid()
      reads this
    {
      RunsOk() && ChannelsOk() && RequestsOk()
    }

    /** What holds in every reachable state. */
    lemma Served()
      requires Valid()
      ensures forall i, j :: 0 <= i < |runs| && 0 <= j < |runs| && i !in closed && j !in closed ==> i == j
      ensures NoDup(closings) && Elements(closings) == closed
      ensures forall i :: 0 <= i < |requests| && requests[i].done in closed ==>
        if requests[i].done < |runs| then Serves(runs[requests[i].done], requests[i]) else stopped
      ensures forall j, tx :: 0 <= j < |runs| ==> (Holds(runs[j].events, tx) <==> LastlyPut(runs[j].batch.txs, tx))
    {
      hide Serves, Coalesced, InBatch, Holds, LastlyPut;
      forall i | 0 <= i < |requests| && requests[i].done < |runs| ensures Serves(runs[requests[i].done], requests[i]) {
        BatchServes(runs[requests[i].done], requests[i]);
      }
      forall j, tx | 0 <= j < |runs| ensures Holds(runs[j].events, tx) <==> LastlyPut(runs[j].batch.txs, tx) {
        RunEvents(runs[j], tx);
      }
    }

    constructor ()
      ensures Valid() && runs == [] && requests == [] && events == [] && !stopped
    {
      curDone, nextDone, launchNextRun, reset, dirtyAccounts, queuedEvents := None, 0, false, None, None, map[];
      closed, closings, stopped := {}, [], false;
      runs, batch, requests, events := [], NO_BATCH, [], [];
    }

    /** The head of the loop: a run is launched only when none is active. */
    method LaunchIfNeeded()
      requires Valid() && !stopped
      modifies this
      ensures Valid() && !stopped && closed == old(closed) && requests == old(requests) && events == old(events)
      ensures if old(curDone) == None && old(launchNextRun) then runs == old(runs) + [old(Next())] && curDone == Some(old(nextDone))
              else runs == old(runs) && curDone == old(curDone)
    {
      hide Coalesced, AllEvents;
      if curDone == None && launchNextRun {
        MoreRuns(runs, Next());
        EmptyBatch(nextDone + 1);
        runs := runs + [Next()];
        curDone, nextDone := Some(nextDone), nextDone + 1;
        launchNextRun, reset, dirtyAccounts, queuedEvents := false, None, None, map[];
        batch := NO_BATCH;
      }
    }

    method RequestReset(req: ResetRequest) returns (done: Done)
      requires Valid() && !stopped
      modifies this`reset, this`launchNextRun, this`batch, this`requests
      ensures Valid() && done == |runs| && done !in closed && requests == old(requests) + [ResetAsked(done, req)]
    {
      hide UnionOf, Queued, AllEvents;
      reset := if reset == None then Some(req) else Some(reset.value.(newHead := req.newHead));
      launchNextRun := true;
      batch := batch.(resets := batch.resets + [req]);
      requests := requests + [ResetAsked(nextDone, req)];
      return nextDone;
    }

    method RequestPromote(accounts: set<Address>) returns (done: Done)
      requires Valid() && !stopped
      modifies this`dirtyAccounts, this`launchNextRun, this`batch, this`requests
      ensures Valid() && done == |runs| && done !in closed && requests == old(requests) + [PromoteAsked(done, accounts)]
    {
      hide UnionOf, Queued, AllEvents;
      dirtyAccounts := if dirtyAccounts == None then Some(accounts) else Some(dirtyAccounts.value + accounts);
      launchNextRun := true;
      UnionMore(batch.promotes, accounts);
      batch := batch.(promotes := batch.promotes + [accounts]);
      requests := requests + [PromoteAsked(nextDone, accounts)];
      return nextDone;
    }

    method QueueEvent(tx: Tx)
      requires Valid() && !stopped
      modifies this`queuedEvents, this`batch, this`events
      ensures Valid() && events == old(events) + [tx]
    {
      hide UnionOf, Queued, PutEvent, AllEvents;
      queuedEvents := PutEvent(queuedEvents, tx);
      QueuedMore(batch.txs, tx);
      batch := batch.(txs := batch.txs + [tx]);
      events := events + [tx];
    }

    /** The background run finishes and closes its channel. */
    method RunEnds()
      requires Valid() && curDone.Some? && curDone.value !in closed
      modifies this`closed, this`closings
      ensures Valid() && closed == old(closed) + {curDone.value} && closings == old(closings) + [curDone.value]
    {
      closed := closed + {curDone.value};
      closings := closings + [curDone.value];
    }

    /** The loop notices that the run is over. */
    method ObserveDone()
      requires Valid() && curDone.Some? && curDone.value in closed
      modifies this`curDone
      ensures Valid() && curDone == None
    {
      curDone := None;
    }

    /** Shutdown waits for the run in progress, then releases whoever waits for the next one. */
    method Shutdown()
      requires Valid() && !stopped && (curDone.Some? ==> curDone.value in closed)
      modifies this`closed, this`closings, this`stopped
      ensures Valid() && stopped && nextDone !in old(closed) && closed == old(closed) + {nextDone} && closings == old(closings) + [nextDone]
    {
      closed := closed + {nextDone};
      closings := closings + [nextDone];
      stopped := true;
    }
  }

  lemma RunEvents(run: RunRecord, tx: Tx)
    requires Coalesced(run)
    ensures Holds(run.events, tx) <==> LastlyPut(run.batch.txs, tx)
  {
    QueuedFacts(run.batch.txs, tx);
  }

  datatype Message = ResetMessage(req: ResetRequest) | PromoteMessage(accounts: set<Address>) | EventMessage(tx: Tx) | RunOver | Noticed | Stop

  /** Every interleaving of requests, events, run ends and shutdown: at most one run is active, no channel is closed
      twice, one handed out is closed only by the run that serves the request or by shutdown, and every event is in one batch. */
  method Schedule(s: Scheduler, messages: seq<Message>)
    requires s.Valid()
    modifies s
    ensures s.Valid()
    ensures forall i, j :: 0 <= i < |s.runs| && 0 <= j < |s.runs| && i !in s.closed && j !in s.closed ==> i == j
    ensures forall i :: 0 <= i < |s.requests| && s.requests[i].done in s.closed ==>
      if s.requests[i].done < |s.runs| then Serves(s.runs[s.requests[i].done], s.requests[i]) else s.stopped
    ensures forall j, tx :: 0 <= j < |s.runs| ==> (Holds(s.runs[j].events, tx) <==> LastlyPut(s.runs[j].batch.txs, tx))
    ensures s.events == AllEvents(s.runs) + s.batch.txs
    ensures NoDup(s.closings) && Elements(s.closings) == s.closed
  {
    hide Serves, Coalesced, InBatch, Holds, LastlyPut, Scheduler.ChannelsOk, Scheduler.RequestsOk, AllEvents;
    for n := 0 to |messages|
      invariant s.Valid()
    {
      if s.stopped {
        if messages[n].RunOver? && s.curDone.Some? && s.curDone.value !in s.closed { s.RunEnds(); }
        continue;
      }
      s.LaunchIfNeeded();
      match messages[n] {
        case ResetMessage(req) => var done := s.RequestReset(req);
        case PromoteMessage(accounts) => var done := s.RequestPromote(accounts);
        case EventMessage(tx) => s.QueueEvent(tx);
        case RunOver => if s.curDone.Some? && s.curDone.value !in s.closed { s.RunEnds(); }
        case Noticed => if s.curDone.Some? && s.curDone.value in s.closed { s.ObserveDone(); }
        case Stop => if s.curDone.Some? ==> s.curDone.value in s.closed { s.Shutdown(); }
      }
    }
    s.Served();
  }
}
