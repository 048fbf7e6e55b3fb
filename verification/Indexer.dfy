/** ChainIndexer (core/chain_indexer.go) without checkpoints and children: section bookkeeping around an unlocked window.
    What may run beside a setValidSections without the lock, and that one itself, is a sequence of single reads and writes. */
module Indexing {
  import opened Basics
  import opened Transactions

  /** The finalised hash at a block number; the zero hash when there is none. */
  type Chain = nat -> Hash

  /** The cached section count, the persisted one and the stored section heads. */
  datatype Index = Index(stored: nat, count: nat, heads: map<nat, Hash>)

  /** Section numbers have 64 bits and no head is zero. */
  ghost predicate Sane(x: Index) {
    x.stored < WORD && forall s :: s in x.heads ==> s < WORD && x.heads[s] != ZERO_HASH
  }

  /** Section heads exist exactly for the stored sections, and the persisted count agrees. */
  ghost predicate Indexed(x: Index) {
    (forall s :: s in x.heads <==> 0 <= s < x.stored) && x.count == x.stored
  }

  /** Every stored section has a head. */
  ghost predicate Backed(x: Index) {
    forall s :: 0 <= s < x.stored ==> s in x.heads
  }

  /** The heads without those of sections `from` to `to`. */
  function Dropped(heads: map<nat, Hash>, from: nat, to: nat): map<nat, Hash> {
    map s | s in heads && !(from <= s < to) :: heads[s]
  }

  /** What setValidSections leaves when nothing interferes. */
  function Cut(x: Index, n: nat): Index {
    Index(n, n, Dropped(x.heads, n, x.stored))
  }

  /** Whole sections among the given number of blocks, in 64 bits. */
  function FullSections(blocks: nat, size: nat): (r: nat)
    requires size > 0
    ensures r < WORD
  {
    FewSections(blocks % WORD, size);
    blocks % WORD / size
  }

  lemma FewSections(blocks: nat, size: nat)
    requires size > 0
    ensures blocks / size <= blocks
  {
    var q := blocks / size;
    assert blocks == q * size + blocks % size;
    assert q * size == q + q * (size - 1);
    NatProduct(q, size - 1);
  }

  lemma NatProduct(a: nat, b: nat)
    ensures a * b >= 0
  {
  }

  function BlocksOf(sections: nat, size: nat): nat {
    sections * size
  }

  /** The number of the last of `sections` sections' blocks, in 64 bits: the largest number when there is none. */
  function LastNumber(sections: nat, size: nat): nat {
    (BlocksOf(sections, size) + WORD - 1) % WORD
  }

  function HeadOf(heads: map<nat, Hash>, section: nat): Hash {
    if section in heads then heads[section] else ZERO_HASH
  }

  /** The head of the last of `s` sections is the canonical block there. */
  predicate Matches(heads: map<nat, Hash>, chain: Chain, size: nat, s: nat) {
    s > 0 && HeadOf(heads, s - 1) == chain(LastNumber(s, size))
  }

  // ---------- The steps of setValidSections ----------

  /** Where a call stands: about to write the count, to test the loop condition, to load the counter for the decrement,
      to store the loaded counter less one, to load the section to delete, to delete its head, to make the last
      assignment; or over. */
  datatype Stage = Counting | Testing | Tested | Loaded(v: nat) | Shrunk | Deleting(section: nat) | Assigning | Over

  /** The counter less one, in 64 bits. */
  function Less(v: nat): nat {
    if v == 0 then WORD - 1 else v - 1
  }

  /** The next read or write of a call for `n` sections. */
  function Advance(x: Index, n: nat, stage: Stage): (Index, Stage) {
    match stage
    case Counting => (x.(count := n), Testing)
    case Testing => (x, if x.stored > n then Tested else Assigning)
    case Tested => (x, Loaded(x.stored))
    case Loaded(v) => (x.(stored := Less(v)), Shrunk)
    case Shrunk => (x, Deleting(x.stored))
    case Deleting(section) => (x.(heads := x.heads - {section}), Testing)
    case Assigning => (x.(stored := n), Over)
    case Over => (x, Over)
  }

  /** How far a call for `n` sections has come that nothing interfered with. */
  ghost predicate Between(before: Index, n: nat, stage: Stage, x: Index) {
    match stage
    case Counting => x == before
    case Testing => x.count == n && n <= x.stored <= before.stored && x.heads == Dropped(before.heads, x.stored, before.stored)
    case Tested => x.count == n && n < x.stored <= before.stored && x.heads == Dropped(before.heads, x.stored, before.stored)
    case Loaded(v) => v == x.stored && x.count == n && n < v <= before.stored && x.heads == Dropped(before.heads, v, before.stored)
    case Shrunk => x.count == n && n <= x.stored < before.stored && x.heads == Dropped(before.heads, x.stored + 1, before.stored)
    case Deleting(section) =>
      section == x.stored && x.count == n && n <= section < before.stored && x.heads == Dropped(before.heads, section + 1, before.stored)
    case Assigning => x.count == n && x.stored == n && x.heads == Dropped(before.heads, n, before.stored)
    case Over => x == Cut(before, n)
  }

  lemma AdvanceBetween(before: Index, n: nat, stage: Stage, x: Index)
    requires n <= before.stored && Between(before, n, stage, x)
    ensures var (x', stage') := Advance(x, n, stage);
      Between(before, n, stage', x') && (!stage.Over? ==> Remaining(n, stage', x') < Remaining(n, stage, x))
  {
    match stage {
      case Counting => DropNothing(before.heads, before.stored);
      case Deleting(section) => DropAgain(before.heads, section, section + 1, before.stored);
      case Testing =>
      case Tested =>
      case Loaded(_) =>
      case Shrunk =>
      case Assigning =>
      case Over =>
    }
  }

  lemma DropNothing(heads: map<nat, Hash>, n: nat)
    ensures Dropped(heads, n, n) == heads
  {
  }

  lemma DropAgain(heads: map<nat, Hash>, n: nat, m: nat, to: nat)
    requires n <= m <= to
    ensures Dropped(Dropped(heads, m, to), n, m) == Dropped(heads, n, to)
    ensures m == n + 1 ==> Dropped(heads, m, to) - {n} == Dropped(heads, n, to)
  {
  }

  /** What every step of an undisturbed call makes smaller. */
  function Remaining(n: nat, stage: Stage, x: Index): int {
    match stage
    case Counting => 6 * (x.stored - n) + 5
    case Testing => 6 * (x.stored - n) + 4
    case Tested => 6 * (x.stored - n) + 3
    case Loaded(_) => 6 * (x.stored - n) + 2
    case Shrunk => 6 * (x.stored - n) + 6
    case Deleting(_) => 6 * (x.stored - n) + 5
    case Assigning => 1
    case Over => 0
  }

  lemma FreshCall(x: Index, n: nat)
    ensures Between(x, n, Counting, x)
  {
  }

  lemma CallOver(before: Index, n: nat, x: Index)
    requires Between(before, n, Over, x)
    ensures x == Cut(before, n)
  {
  }

  lemma RemainingPositive(before: Index, n: nat, stage: Stage, x: Index)
    requires n <= before.stored && Between(before, n, stage, x)
    ensures Remaining(n, stage, x) >= 0
  {
  }

  lemma AdvanceSane(x: Index, n: nat, stage: Stage)
    requires Sane(x) && n < WORD && (stage.Loaded? ==> stage.v < WORD)
    ensures var (x', stage') := Advance(x, n, stage);
      Sane(x') && (stage'.Loaded? ==> stage'.v < WORD)
  {
  }

  lemma BetweenBacked(before: Index, n: nat, stage: Stage, x: Index)
    requires n < before.stored && Backed(before) && Between(before, n, stage, x)
    ensures Backed(x)
  {
  }

  // ---------- A failing backend reset: setValidSections(0) without the lock ----------

  /** A locked setValidSections inside a failing reset, where the reset stood then, and whether the section the reset had
      just given up still had its head. */
  datatype LockedCall = LockedCall(sections: nat, during: Stage, lost: bool)

  /** The reset has tested that sections are left, and now there are none: its decrement wraps around. */
  predicate Wraps(c: LockedCall) {
    c.during == Tested && c.sections == 0
  }

  /** A head was lost sight of, and no wrap-around came later to sweep it away. */
  predicate Leaks(calls: seq<LockedCall>) {
    exists i :: 0 <= i < |calls| && calls[i].lost && forall j :: i < j < |calls| ==> !Wraps(calls[j])
  }

  /** The last locked call, if any, left no section, and no head was lost for good. */
  predicate Undisturbed(calls: seq<LockedCall>) {
    (calls != [] ==> calls[|calls| - 1].sections == 0) && !Leaks(calls)
  }

  /** One more than the highest section that will be given up from counter `v` on. */
  function Top(v: nat): nat {
    if v == 0 then WORD else v
  }

  /** No head lies beyond what the reset has still to give up. */
  ghost predicate Contained(x: Index, stage: Stage) {
    match stage
    case Counting => true
    case Testing => forall s :: s in x.heads ==> s < x.stored
    case Tested => forall s :: s in x.heads ==> s < Top(x.stored)
    case Loaded(v) => forall s :: s in x.heads ==> s < Top(v)
    case Shrunk => forall s :: s in x.heads ==> s <= x.stored
    case Deleting(section) => forall s :: s in x.heads ==> s < x.stored || s == section
    case Assigning => x.heads == map[] && x.stored == 0
    case Over => x.heads == map[] && x.stored == 0
  }

  /** Some head lies beyond what the reset will ever give up. */
  ghost predicate Leaky(x: Index, stage: Stage) {
    match stage
    case Counting => true
    case Testing => exists s :: s in x.heads && s > x.stored
    case Tested => x.stored > 0 && exists s :: s in x.heads && s > x.stored
    case Loaded(v) => 0 < v && x.stored <= v && exists s :: s in x.heads && s > v
    case Shrunk => exists s :: s in x.heads && s > x.stored
    case Deleting(section) => x.stored <= section && exists s :: s in x.heads && s > section
    case Assigning => x.stored == 0 && exists s :: s in x.heads && s > 0
    case Over => x.stored == 0 && exists s :: s in x.heads && s > 0
  }

  /** Nothing has interfered yet. */
  ghost predicate Alone(x: Index, stage: Stage) {
    match stage
    case Counting => Indexed(x)
    case Testing => forall s :: s in x.heads <==> 0 <= s < x.stored
    case Tested => x.stored > 0 && forall s :: s in x.heads <==> 0 <= s < x.stored
    case Loaded(v) => v == x.stored > 0 && forall s :: s in x.heads <==> 0 <= s < x.stored
    case Shrunk => forall s :: s in x.heads <==> 0 <= s <= x.stored
    case Deleting(section) => section == x.stored && forall s :: s in x.heads <==> 0 <= s <= x.stored
    case Assigning => x.stored == 0 && x.heads == map[]
    case Over => x.stored == 0 && x.heads == map[]
  }

  /** A failing reset under way: what its own writes and the locked calls inside it have made of the index. */
  ghost predicate Midway(x: Index, stage: Stage, calls: seq<LockedCall>) {
    if stage == Counting then Indexed(x) && calls == [] else
      && x.count == (if calls == [] then 0 else calls[|calls| - 1].sections)
      && (calls == [] ==> Alone(x, stage))
      && (if Leaks(calls) then Leaky(x, stage) else Contained(x, stage))
  }

  lemma AloneIsContained(x: Index, stage: Stage)
    requires Alone(x, stage) && !stage.Counting?
    ensures Contained(x, stage)
  {
  }

  lemma AloneSteps(x: Index, stage: Stage)
    requires Sane(x) && Alone(x, stage) && !stage.Over?
    ensures var (x', stage') := Advance(x, 0, stage); Alone(x', stage')
  {
  }

  lemma ContainedSteps(x: Index, stage: Stage)
    requires Sane(x) && Contained(x, stage) && !stage.Counting? && !stage.Over?
    ensures var (x', stage') := Advance(x, 0, stage); Contained(x', stage')
  {
  }

  lemma LeakySteps(x: Index, stage: Stage)
    requires Leaky(x, stage) && !stage.Counting? && !stage.Over?
    ensures var (x', stage') := Advance(x, 0, stage); Leaky(x', stage')
  {
    match stage {
      case Deleting(section) =>
        var s :| s in x.heads && s > section;
        assert s in x.heads - {section};
      case Loaded(v) =>
        var s :| s in x.heads && s > v;
        assert s > Less(v);
      case Testing =>
      case Tested =>
      case Shrunk =>
      case Assigning =>
    }
  }

  lemma NoCallNoLeak()
    ensures !Leaks([])
  {
  }

  /** A step of the reset keeps the account. */
  lemma ResetKeeps(x: Index, stage: Stage, calls: seq<LockedCall>)
    requires Sane(x) && Midway(x, stage, calls) && !stage.Over?
    ensures var (x', stage') := Advance(x, 0, stage); Midway(x', stage', calls)
  {
    hide Alone, Contained, Leaky, Leaks;
    var (x', stage') := Advance(x, 0, stage);
    NoCallNoLeak();
    if stage == Counting {
      assert Alone(x, stage) by { CountingIsAlone(x); }
      AloneSteps(x, stage);
      AloneIsContained(x', stage');
    } else {
      if calls == [] {
        AloneSteps(x, stage);
      }
      if Leaks(calls) {
        LeakySteps(x, stage);
      } else {
        ContainedSteps(x, stage);
      }
    }
  }

  lemma CountingIsAlone(x: Index)
    requires Indexed(x)
    ensures Alone(x, Counting)
  {
  }

  /** After the last step the index is in step exactly when the reset was undisturbed. */
  lemma ResetOver(x: Index, calls: seq<LockedCall>)
    requires Midway(x, Over, calls)
    ensures Indexed(x) <==> Undisturbed(calls)
  {
  }

  /** A locked call inside the reset, between two of its steps. */
  function Noted(x: Index, n: nat, stage: Stage): LockedCall {
    LockedCall(n, stage, stage == Shrunk && x.stored in x.heads)
  }

  lemma LeaksMore(calls: seq<LockedCall>, c: LockedCall)
    ensures Leaks(calls + [c]) <==> c.lost || (Leaks(calls) && !Wraps(c))
  {
    var more := calls + [c];
    if c.lost {
      assert more[|calls|].lost;
    }
    if Leaks(calls) && !Wraps(c) {
      var i :| 0 <= i < |calls| && calls[i].lost && forall j :: i < j < |calls| ==> !Wraps(calls[j]);
      assert more[i].lost && forall j :: i < j < |more| ==> !Wraps(more[j]);
    }
    if Leaks(more) {
      var i :| 0 <= i < |more| && more[i].lost && forall j :: i < j < |more| ==> !Wraps(more[j]);
      if i < |calls| {
        forall j | i < j < |calls| ensures !Wraps(calls[j]) {
          assert more[j] == calls[j];
        }
        assert calls[i].lost && !Wraps(more[|calls|]);
      }
    }
  }

  lemma ContainedCall(x: Index, stage: Stage, n: nat)
    requires Sane(x) && n < x.stored && Contained(x, stage) && !stage.Counting? && !stage.Over? && !stage.Assigning?
    ensures if Noted(x, n, stage).lost then Leaky(Cut(x, n), stage) else Contained(Cut(x, n), stage)
  {
    if Noted(x, n, stage).lost {
      assert x.stored in Cut(x, n).heads;
    }
  }

  lemma LeakyCall(x: Index, stage: Stage, n: nat)
    requires Sane(x) && n < x.stored && Leaky(x, stage) && !stage.Counting? && !stage.Over? && !stage.Assigning?
    ensures if Wraps(Noted(x, n, stage)) then Contained(Cut(x, n), stage) else Leaky(Cut(x, n), stage)
  {
    var after := Cut(x, n).heads;
    assert forall s :: s in x.heads && s > x.stored ==> s in after;
  }

  /** The call keeps the account, with itself added to it. */
  lemma CallKeeps(x: Index, stage: Stage, calls: seq<LockedCall>, n: nat)
    requires Sane(x) && n < x.stored && Midway(x, stage, calls) && !stage.Counting? && !stage.Over?
    ensures Midway(Cut(x, n), stage, calls + [Noted(x, n, stage)])
  {
    hide Leaks, Wraps, Contained, Leaky, Alone;
    LeaksMore(calls, Noted(x, n, stage));
    NotAssigning(x, stage, calls);
    if Leaks(calls) {
      LeakyCall(x, stage, n);
    } else {
      ContainedCall(x, stage, n);
    }
    NotBoth(x, n, stage);
  }

  lemma NotBoth(x: Index, n: nat, stage: Stage)
    ensures !(Noted(x, n, stage).lost && Wraps(Noted(x, n, stage)))
  {
  }

  lemma NotAssigning(x: Index, stage: Stage, calls: seq<LockedCall>)
    requires Midway(x, stage, calls) && x.stored > 0
    ensures !stage.Assigning?
  {
  }

  lemma CutIndexed(x: Index, n: nat)
    requires Indexed(x) && n < x.stored
    ensures Indexed(Cut(x, n))
  {
  }

  // ---------- The indexer ----------

  /** What the update loop remembers while the lock is released. */
  datatype Update = Idle | Processing(section: nat, oldHead: Hash, failed: bool)

  /** What the holder of the lock does after a call of setValidSections. */
  datatype Next = Release(known: nat) | Recheck(chain: Chain)

  /** Where `Sections` stands between two calls of setValidSections: about to test whether sections are left, to load the
      counter for the number of the last block, to load it for the section, to read that section's head and compare, to
      load it for the call; or, for the answer, to load it for the count, for the number, for the section, and to read
      that section's head. */
  datatype Look =
    | Test
    | Number
    | Load(number: nat)
    | Fetch(number: nat, section: nat)
    | Drop
    | Report
    | Counted(sections: nat)
    | Placed(sections: nat, last: nat)
    | Ask(sections: nat, last: nat, section: nat)

  /** What is done under the lock beside the update loop: nothing, `Sections` between two calls, or a setValidSections. */
  datatype Job = Free | Looking(chain: Chain, look: Look) | Calling(n: nat, stage: Stage, next: Next)

  function After(next: Next): (job: Job)
    ensures !job.Calling? && !Deciding(job)
  {
    if next.Release? then Free else Looking(next.chain, Test)
  }

  /** A call of setValidSections is under way or being decided on. */
  predicate Deciding(job: Job) {
    job.Calling? || (job.Looking? && (job.look.Number? || job.look.Load? || job.look.Fetch? || job.look.Drop?))
  }

  /** The next read of `Sections`, but for the one that starts a call and the last one. */
  function NextLook(x: Index, chain: Chain, look: Look, size: nat): Look {
    match look
    case Test => if x.stored > 0 then Number else Report
    case Number => Load(LastNumber(x.stored, size))
    case Load(number) => Fetch(number, Less(x.stored))
    case Fetch(number, section) => if HeadOf(x.heads, section) == chain(number) then Report else Drop
    case Drop => Drop
    case Report => Counted(x.stored)
    case Counted(sections) => Placed(sections, LastNumber(x.stored, size))
    case Placed(sections, last) => Ask(sections, last, Less(x.stored))
    case Ask(_, _, _) => look
  }

  /** What the reads so far amount to when no step of a reset has fallen between them. */
  ghost predicate Seen(x: Index, chain: Chain, look: Look, size: nat) {
    match look
    case Test => true
    case Number => x.stored > 0
    case Load(number) => x.stored > 0 && number == LastNumber(x.stored, size)
    case Fetch(number, section) => x.stored > 0 && number == LastNumber(x.stored, size) && section == x.stored - 1
    case Drop => x.stored > 0 && !Matches(x.heads, chain, size, x.stored)
    case Report => Canonical(x, chain, size)
    case Counted(sections) => Canonical(x, chain, size) && sections == x.stored
    case Placed(sections, last) => Canonical(x, chain, size) && sections == x.stored && last == LastNumber(x.stored, size)
    case Ask(sections, last, section) =>
      Canonical(x, chain, size) && sections == x.stored && last == LastNumber(x.stored, size) && section == Less(x.stored)
  }

  /** The last stored section, if any, has a canonical head. */
  ghost predicate Canonical(x: Index, chain: Chain, size: nat) {
    x.stored > 0 ==> Matches(x.heads, chain, size, x.stored)
  }

  lemma LookSeen(x: Index, chain: Chain, look: Look, size: nat)
    requires Seen(x, chain, look, size)
    ensures Seen(x, chain, NextLook(x, chain, look, size), size)
  {
    hide LastNumber;
  }

  /** The setValidSections(0) of a failing backend reset, which holds no lock. */
  datatype Reset = Off | At(stage: Stage)

  /** The remembered head is still there exactly while the stored sections are those processing started on. */
  ghost predicate Guarded(x: Index, section: nat, oldHead: Hash) {
    && x.stored <= section
    && (section > 0 ==> oldHead != ZERO_HASH && (HeadOf(x.heads, section - 1) == oldHead <==> x.stored == section))
  }

  ghost predicate Accounted(x: Index, reset: Reset, calls: seq<LockedCall>) {
    if reset.Off? then Indexed(x) else Midway(x, reset.stage, calls)
  }

  /** What is noted of a locked call that is over. */
  function Logged(calls: seq<LockedCall>, x: Index, n: nat, reset: Reset): seq<LockedCall> {
    if reset.At? && reset.stage != Counting then calls + [Noted(x, n, reset.stage)] else calls
  }

  lemma CallAccounted(x: Index, n: nat, reset: Reset, calls: seq<LockedCall>)
    requires Sane(x) && n < x.stored && Accounted(x, reset, calls) && (reset.At? ==> !reset.stage.Over?)
    ensures Accounted(Cut(x, n), reset, Logged(calls, x, n, reset))
  {
    hide Midway, Indexed, Cut, Noted;
    if reset.Off? {
      CutIndexed(x, n);
    } else if reset.stage == Counting {
      assert Indexed(x) && calls == [] by { AtStart(x, calls); }
      CutIndexed(x, n);
      FromStart(Cut(x, n));
    } else {
      CallKeeps(x, reset.stage, calls, n);
    }
  }

  lemma AtStart(x: Index, calls: seq<LockedCall>)
    requires Midway(x, Counting, calls)
    ensures Indexed(x) && calls == []
  {
  }

  lemma FromStart(x: Index)
    requires Indexed(x)
    ensures Midway(x, Counting, [])
  {
  }

  lemma CutGuards(x: Index, n: nat, section: nat, oldHead: Hash)
    requires n < x.stored && Guarded(x, section, oldHead)
    ensures Guarded(Cut(x, n), section, oldHead)
  {
  }

  lemma AloneBacked(x: Index, reset: Reset, calls: seq<LockedCall>)
    requires Accounted(x, reset, calls) && (reset.At? ==> calls == [])
    ensures Backed(x)
  {
  }

  /** The numbers have 64 bits, no call is over, and a reset is under way only after processing has failed. */
  ghost predicate Typed(x: Index, known: nat, job: Job, reset: Reset, update: Update) {
    && Sane(x) && known < WORD
    && (job.Calling? ==> job.n < WORD && !job.stage.Over? && (job.stage.Loaded? ==> job.stage.v < WORD))
    && (reset.At? ==> !reset.stage.Over? && (reset.stage.Loaded? ==> reset.stage.v < WORD) && update.Processing? && update.failed)
    && (update.Processing? ==> update.section < WORD - 1)
  }

  /** The index, what is under way, and the history: the index when the locked call under way began, and whether no step
      of a reset has fallen into it or between the reads before it; the locked calls inside the last failing reset;
      whether every failing reset so far was undisturbed and none of its steps fell into a locked call or between those
      reads; whether no locked call and no failing reset overlapped at all. */
  datatype State = State(x: Index, job: Job, reset: Reset, update: Update,
                         before: Index, solid: bool, calls: seq<LockedCall>, clean: bool, apart: bool)
  {
    /** The index without the locked call under way. */
    function Base(): Index {
      if job.Calling? then before else x
    }
  }

  /** The invariant of the indexer beside the ranges of its numbers. */
  ghost predicate Sound(v: State, size: nat) {
    && (v.solid && v.job.Looking? ==> Seen(v.x, v.job.chain, v.job.look, size))
    && (v.solid && v.job.Calling? ==> Sane(v.before) && v.job.n < v.before.stored && Between(v.before, v.job.n, v.job.stage, v.x))
    && (v.clean && Deciding(v.job) ==> v.solid)
    && (v.clean ==> Accounted(v.Base(), v.reset, v.calls))
    && (v.clean && v.update.Processing? && !v.update.failed ==> Guarded(v.Base(), v.update.section, v.update.oldHead))
    && (v.apart ==> v.clean && (v.reset.At? ==> v.calls == []))
  }

  lemma CallTyped(x: Index, known: nat, job: Job, reset: Reset, update: Update, job': Job)
    requires job.Calling? && !job'.Calling? && Typed(x, known, job, reset, update)
    ensures var (x', stage') := Advance(x, job.n, job.stage);
      Typed(x', known, if stage'.Over? then job' else job.(stage := stage'), reset, update)
  {
    hide Advance, Sane;
    AdvanceSane(x, job.n, job.stage);
  }

  lemma ResetTyped(x: Index, known: nat, job: Job, reset: Reset, update: Update)
    requires reset.At? && Typed(x, known, job, reset, update)
    ensures var (x', stage') := Advance(x, 0, reset.stage);
      Typed(x', known, job, if stage'.Over? then Off else At(stage'), update)
  {
    hide Advance, Sane;
    AdvanceSane(x, 0, reset.stage);
  }

  lemma CallGoesOn(v: State, size: nat)
    requires v.job.Calling? && Sound(v, size)
    ensures var (x, stage) := Advance(v.x, v.job.n, v.job.stage);
      Sound(v.(x := x, job := v.job.(stage := stage)), size)
  {
    hide Advance, Between, Accounted, Sane, Guarded;
    if v.solid {
      AdvanceBetween(v.before, v.job.n, v.job.stage, v.x);
    }
  }

  lemma CallEnds(v: State, size: nat, known: nat, job: Job)
    requires v.job.Calling? && v.job.stage == Over && job == After(v.job.next)
    requires Sound(v, size) && Typed(v.x, known, job, v.reset, v.update)
    ensures var calls := Logged(v.calls, v.before, v.job.n, v.reset);
      Sound(v.(job := job, calls := calls, apart := v.apart && calls == v.calls), size) && (v.solid ==> v.x == Cut(v.before, v.job.n))
  {
    hide Between, Accounted, Sane, Guarded, Logged, Cut;
    if v.solid {
      CallOver(v.before, v.job.n, v.x);
    }
    if v.clean {
      CallAccounted(v.before, v.job.n, v.reset, v.calls);
      if v.update.Processing? && !v.update.failed {
        CutGuards(v.before, v.job.n, v.update.section, v.update.oldHead);
      }
    }
  }

  lemma ResetGoesOn(v: State, size: nat, known: nat)
    requires v.reset.At? && Sound(v, size) && Typed(v.x, known, v.job, v.reset, v.update)
    ensures var (x, stage) := Advance(v.x, 0, v.reset.stage);
      var clean := v.clean && !Deciding(v.job);
      && Sound(v.(x := x, reset := At(stage), solid := false, clean := clean, apart := v.apart && clean), size)
      && (clean && stage.Over? ==> (Indexed(x) <==> Undisturbed(v.calls))) && v.update.Processing? && v.update.failed
  {
    hide Advance, Between, Midway, Indexed, Sane, Guarded, Undisturbed, Seen;
    if v.clean && !Deciding(v.job) {
      ResetKeeps(v.x, v.reset.stage, v.calls);
      var (x, stage) := Advance(v.x, 0, v.reset.stage);
      if stage.Over? {
        ResetOver(x, v.calls);
      }
    }
  }

  lemma ApartIsClean(v: State, size: nat)
    requires Sound(v, size)
    ensures v.apart ==> v.clean
  {
  }

  lemma CallIsDeciding(job: Job)
    ensures job.Calling? ==> Deciding(job)
  {
  }

  lemma ResetEnds(v: State, size: nat)
    requires (v.update.Processing? ==> v.update.failed) && v.reset == At(Over) && Sound(v, size)
    requires v.clean ==> !v.job.Calling? && (Indexed(v.x) <==> Undisturbed(v.calls))
    ensures Sound(v.(reset := Off, clean := v.clean && Undisturbed(v.calls)), size)
  {
    hide Between, Midway, Indexed, Sane, Guarded, Undisturbed, Seen;
    if v.apart {
      NoCalls();
    }
  }

  /** A read of `Sections`; the first one of a turn starts afresh. */
  lemma LookGoesOn(v: State, size: nat)
    requires v.job.Looking? && !v.job.look.Drop? && !v.job.look.Ask? && Sound(v, size)
    ensures Sound(v.(job := v.job.(look := NextLook(v.x, v.job.chain, v.job.look, size)), solid := v.solid || v.job.look == Test), size)
  {
    hide Between, Accounted, Sane, Guarded, Seen, NextLook, LastNumber;
    if v.solid || v.job.look == Test {
      assert Seen(v.x, v.job.chain, v.job.look, size) by { TestSeen(v.x, v.job.chain, v.job.look, size); }
      LookSeen(v.x, v.job.chain, v.job.look, size);
    }
    StillDeciding(v.x, v.job.chain, v.job.look, size);
  }

  lemma TestSeen(x: Index, chain: Chain, look: Look, size: nat)
    ensures look == Test ==> Seen(x, chain, look, size)
  {
  }

  lemma StillDeciding(x: Index, chain: Chain, look: Look, size: nat)
    ensures var look' := NextLook(x, chain, look, size);
      Deciding(Looking(chain, look')) ==> look == Test || Deciding(Looking(chain, look))
  {
  }

  /** The read that starts a call. */
  lemma DropStarts(v: State, size: nat, next: Next)
    requires v.job.Looking? && v.job.look == Drop && Sound(v, size) && Sane(v.x)
    ensures Sound(v.(job := Calling(Less(v.x.stored), Counting, next), before := v.x), size)
  {
    hide Accounted, Guarded;
  }

  lemma TypedSane(x: Index, known: nat, job: Job, reset: Reset, update: Update)
    requires Typed(x, known, job, reset, update)
    ensures Sane(x)
  {
  }

  lemma TypedCall(x: Index, known: nat, job: Job, reset: Reset, update: Update, next: Next)
    requires Typed(x, known, job, reset, update)
    ensures Typed(x, known, Calling(Less(x.stored), Counting, next), reset, update)
  {
  }

  lemma TypedLook(x: Index, known: nat, job: Job, reset: Reset, update: Update, look: Look)
    requires Typed(x, known, job, reset, update) && job.Looking?
    ensures Typed(x, known, job.(look := look), reset, update)
  {
  }

  lemma AskEnds(v: State, size: nat, known: nat)
    requires v.job.Looking? && v.job.look.Ask? && Sound(v, size) && Typed(v.x, known, v.job, v.reset, v.update)
    ensures Sound(v.(job := Free), size) && Typed(v.x, known, Free, v.reset, v.update)
  {
    hide Accounted, Guarded, Sane;
  }

  class ChainIndexer {
    const sectionSize: nat
    const confirmsReq: nat
    var storedSections: nat
    var knownSections: nat
    var cascadedHead: nat
    var count: nat
    var heads: map<nat, Hash>
    var update: Update
    var job: Job
    var reset: Reset
    // History, as in `State`.
    ghost var before: Index
    ghost var solid: bool
    ghost var calls: seq<LockedCall>
    ghost var clean: bool
    ghost var apart: bool

    ghost function Now(): Index
      reads this`storedSections, this`count, this`heads
    {
      Index(storedSections, count, heads)
    }

    ghost function View(): State
      reads this
    {
      State(Now(), job, reset, update, before, solid, calls, clean, apart)
    }

    ghost predicate Valid()
      reads this
    {
      && sectionSize > 0 && confirmsReq < WORD
      && Typed(Now(), knownSections, job, reset, update)
      && Sound(View(), sectionSize)
    }

    constructor (sectionSize: nat, confirmsReq: nat)
      requires sectionSize > 0 && confirmsReq < WORD
      ensures Valid() && apart && Now() == Index(0, 0, map[]) && knownSections == 0 && update == Idle && job == Free && reset == Off
      ensures this.sectionSize == sectionSize && this.confirmsReq == confirmsReq
    {
      this.sectionSize, this.confirmsReq := sectionSize, confirmsReq;
      storedSections, knownSections, cascadedHead, count, heads, update, job, reset := 0, 0, 0, 0, map[], Idle, Free, Off;
      before, solid, calls, clean, apart := Index(0, 0, map[]), true, [], true, true;
    }

    /** What is promised of every state. */
    lemma Facts()
      requires Valid()
      ensures apart ==> Backed(Now())
      ensures clean && reset.Off? && !job.Calling? ==> Indexed(Now())
    {
      hide Between, Midway, Indexed, Backed;
      if apart {
        AloneBacked(View().Base(), reset, calls);
        if job.Calling? {
          BetweenBacked(before, job.n, job.stage, Now());
        }
      }
    }

    function SectionHead(section: nat): Hash
      reads this`heads
    {
      HeadOf(heads, section)
    }

    // ---------- Single steps ----------

    /** The next read or write of the locked setValidSections. */
    method CallStep()
      requires Valid() && job.Calling?
      modifies this`storedSections, this`count, this`heads, this`job, this`cascadedHead, this`calls, this`apart
      ensures Valid()
      ensures var (x, stage) := Advance(old(Now()), old(job.n), old(job.stage));
        && Now() == x && job == (if stage.Over? then After(old(job.next)) else old(job).(stage := stage))
        && calls == (if stage.Over? then Logged(old(calls), before, old(job.n), reset) else old(calls))
        && apart == (old(apart) && calls == old(calls)) && (stage.Over? && old(solid) ==> x == Cut(before, old(job.n)))
    {
      hide Advance, Typed, Sound, Logged, Cut, Deciding, After;
      CallTyped(Now(), knownSections, job, reset, update, After(job.next));
      CallGoesOn(View(), sectionSize);
      var n, next := job.n, job.next;
      var (x, stage) := Advance(Index(storedSections, count, heads), job.n, job.stage);
      storedSections, count, heads := x.stored, x.count, x.heads;
      if !stage.Over? {
        job := job.(stage := stage);
        return;
      }
      CallEnds(View().(job := job.(stage := Over)), sectionSize, knownSections, After(next));
      job := After(next);
      if next.Release? && BlocksOf(next.known, sectionSize) < cascadedHead {
        cascadedHead := BlocksOf(next.known, sectionSize);
      }
      apart := apart && Logged(calls, before, n, reset) == calls;
      calls := Logged(calls, before, n, reset);
    }

    /** The backend reset fails: its setValidSections(0) begins, without the lock. */
    method ResetFails()
      requires Valid() && update.Processing? && !update.failed
      modifies this`update, this`reset, this`calls
      ensures Valid() && reset == At(Counting) && calls == [] && update == old(update).(failed := true)
    {
      hide Between, Indexed, Sane, Guarded;
      update, reset := update.(failed := true), At(Counting);
      calls := [];
      if clean {
        FromStart(View().Base());
      }
    }

    /** The next read or write of the failing reset. After the last one the index is in step exactly when the locked calls
        inside the reset did not disturb it. */
    method ResetStep()
      requires Valid() && reset.At?
      modifies this`storedSections, this`count, this`heads, this`reset, this`solid, this`clean, this`apart
      ensures Valid()
      ensures var (x, stage) := Advance(old(Now()), 0, old(reset.stage));
        && Now() == x && reset == (if stage.Over? then Off else At(stage))
        && clean == (old(clean) && !Deciding(job) && (stage.Over? ==> Undisturbed(calls)))
        && apart == (old(apart) && !Deciding(job))
        && (stage.Over? && old(clean) && !Deciding(job) ==> (Indexed(x) <==> Undisturbed(calls)))
    {
      hide Advance, Typed, Sound, Indexed, Undisturbed, Deciding;
      ResetTyped(Now(), knownSections, job, reset, update);
      ResetGoesOn(View(), sectionSize, knownSections);
      ApartIsClean(View(), sectionSize);
      CallIsDeciding(job);
      var (x, stage) := Advance(Index(storedSections, count, heads), 0, reset.stage);
      storedSections, count, heads := x.stored, x.count, x.heads;
      reset := At(stage);
      solid, clean, apart := false, clean && !Deciding(job), apart && !Deciding(job);
      if stage.Over? {
        ResetEnds(View(), sectionSize);
        reset, clean := Off, clean && Undisturbed(calls);
      }
    }

    /** The first part of newHead: more sections become known, or fewer; a reorganisation may go on to setValidSections. */
    method HeadBegin(head: nat, reorg: bool)
      requires Valid() && job.Free? && head < WORD
      modifies this`knownSections, this`cascadedHead, this`job, this`before, this`solid
      ensures Valid() && Now() == old(Now())
      ensures if reorg then
                var sections := FullSections(head + 1, sectionSize);
                && knownSections == (if sections < old(knownSections) then sections else old(knownSections))
                && if sections < storedSections then job == Calling(sections, Counting, Release(sections)) && solid && before == Now()
                   else job == Free
              else
                var sections := if head >= confirmsReq then FullSections(head + 1 - confirmsReq, sectionSize) else 0;
                job == Free && knownSections == (if sections > old(knownSections) then sections else old(knownSections))
    {
      hide FullSections, BlocksOf, Accounted, Sane, Guarded;
      if !reorg {
        if head >= confirmsReq {
          var sections := FullSections(head + 1 - confirmsReq, sectionSize);
          knownSections := if sections > knownSections then sections else knownSections;
        }
        return;
      }
      var sections := FullSections(head + 1, sectionSize);
      knownSections := if sections < knownSections then sections else knownSections;
      if sections < storedSections {
        StartCall(sections, Release(sections));
      } else if BlocksOf(sections, sectionSize) < cascadedHead {
        cascadedHead := BlocksOf(sections, sectionSize);
      }
    }

    method StartCall(n: nat, next: Next)
      requires Valid() && job.Free? && n < storedSections
      modifies this`job, this`before, this`solid
      ensures Valid() && job == Calling(n, Counting, next) && solid && before == Now()
    {
      hide Accounted, Guarded;
      before, solid := Now(), true;
      job := Calling(n, Counting, next);
    }

    /** `Sections` takes the lock. */
    method SectionsBegin(chain: Chain)
      requires Valid() && job.Free?
      modifies this`job
      ensures Valid() && job == Looking(chain, Test)
    {
      hide Accounted, Sane, Guarded;
      job := Looking(chain, Test);
    }

    /** The next read of `Sections`. The last one gives the answer. */
    method LookStep() returns (r: Option<(nat, nat, Hash)>)
      requires Valid() && job.Looking?
      modifies this`job, this`before, this`solid
      ensures Valid() && solid == (old(solid) || old(job.look) == Test)
      ensures match old(job.look)
        case Drop => r == None && before == Now() && job == Calling(Less(storedSections), Counting, Recheck(old(job.chain)))
        case Ask(sections, last, section) => r == Some((sections, last, HeadOf(heads, section))) && job == Free
        case _ => r == None && job == Looking(old(job.chain), NextLook(Now(), old(job.chain), old(job.look), sectionSize))
    {
      hide Sound, Typed, NextLook;
      var chain := job.chain;
      match job.look {
        case Drop =>
          assert Sane(Now()) by { TypedSane(Now(), knownSections, job, reset, update); }
          DropStarts(View(), sectionSize, Recheck(chain));
          TypedCall(Now(), knownSections, job, reset, update, Recheck(chain));
          before := Now();
          job := Calling(Less(storedSections), Counting, Recheck(chain));
          return None;
        case Ask(sections, last, section) =>
          AskEnds(View(), sectionSize, knownSections);
          job := Free;
          return Some((sections, last, SectionHead(section)));
        case _ =>
          LookGoesOn(View(), sectionSize);
          TypedLook(Now(), knownSections, job, reset, update, NextLook(Index(storedSections, count, heads), chain, job.look, sectionSize));
          solid := solid || job.look == Test;
          job := Looking(chain, NextLook(Index(storedSections, count, heads), chain, job.look, sectionSize));
          return None;
      }
    }

    // ---------- Whole operations ----------

    /** A turn of verifyLastHead in `Sections`, with no step of a reset in between: a section whose head is not canonical is
        given up; else the answer is the count, the last block indexed (in 64 bits, so the largest number when nothing is)
        and its hash. */
    method Check() returns (r: Option<(nat, nat, Hash)>)
      requires Valid() && job.Looking? && job.look == Test
      modifies this`job, this`before, this`solid
      ensures Valid() && Now() == old(Now())
      ensures r == None <==> storedSections > 0 && !Matches(heads, old(job.chain), sectionSize, storedSections)
      ensures if r == None then job == Calling(storedSections - 1, Counting, Recheck(old(job.chain))) && solid && before == Now()
              else job == Free && r.value == (storedSections, LastNumber(storedSections, sectionSize), HeadOf(heads, Less(storedSections)))
    {
      hide ChainIndexer.Valid, LastNumber;
      r := LookStep();
      if job.look == Number {
        r := LookStep();
        r := LookStep();
        r := LookStep();
        if job.look == Drop {
          r := LookStep();
          return;
        }
      }
      r := LookStep();
      r := LookStep();
      r := LookStep();
      r := LookStep();
    }

    /** A locked setValidSections to its end, with no step of a reset in between. */
    method FinishCall()
      requires Valid() && job.Calling? && job.stage == Counting && solid && before == Now()
      modifies this`storedSections, this`count, this`heads, this`job, this`cascadedHead, this`calls, this`apart
      ensures Valid() && Now() == Cut(old(Now()), old(job.n)) && calls == Logged(old(calls), old(Now()), old(job.n), reset)
      ensures apart == (old(apart) && calls == old(calls))
      ensures job == After(old(job.next))
    {
      hide Accounted, Sane, Guarded, Between, Logged, Cut;
      ghost var n := job.n;
      while job.Calling?
        invariant Valid()
        invariant apart == (old(apart) && calls == old(calls))
        invariant if job.Calling? then job == Calling(n, job.stage, old(job.next)) && calls == old(calls)
                  else && Now() == Cut(before, n) && calls == Logged(old(calls), before, n, reset)
                       && job == After(old(job.next))
        decreases if job.Calling? then Remaining(n, job.stage, Now()) + 1 else 0
      {
        AdvanceBetween(before, n, job.stage, Now());
        RemainingPositive(before, n, job.stage, Now());
        CallStep();
      }
    }

    /** A failing reset to its end, with no step of a locked call in between: nothing is left. */
    method FailedReset()
      requires Valid() && update.Processing? && !update.failed
      modifies this`storedSections, this`count, this`heads, this`update, this`reset, this`calls, this`solid, this`clean, this`apart
      ensures Valid() && reset.Off? && Now() == Cut(old(Now()), 0) && update == old(update).(failed := true)
      ensures clean == (old(clean) && !Deciding(job)) && apart == (old(apart) && !Deciding(job))
    {
      hide Accounted, Sane, Guarded, Between, Cut, Undisturbed;
      ghost var x0 := Now();
      ResetFails();
      FreshCall(x0, 0);
      NoCalls();
      while reset.At?
        invariant Valid() && calls == [] && update == old(update).(failed := true)
        invariant if reset.At? then Between(x0, 0, reset.stage, Now()) else Now() == Cut(x0, 0)
        invariant if reset == At(Counting) then clean == old(clean) && apart == old(apart)
                  else clean == (old(clean) && !Deciding(job)) && apart == (old(apart) && !Deciding(job))
        decreases if reset.At? then Remaining(0, reset.stage, Now()) + 1 else 0
      {
        AdvanceBetween(x0, 0, reset.stage, Now());
        RemainingPositive(x0, 0, reset.stage, Now());
        ResetStep();
        if reset.Off? {
          CallOver(x0, 0, Now());
        }
      }
    }

    /** newHead: a reorganisation reverts to the sections before it; a new head makes more sections known. */
    method NewHead(head: nat, reorg: bool)
      requires Valid() && job.Free? && head < WORD
      modifies this`storedSections, this`count, this`heads, this`knownSections, this`cascadedHead, this`job, this`before, this`solid
      modifies this`calls, this`apart
      ensures Valid() && job.Free? && apart == (old(apart) && calls == old(calls))
      ensures if reorg then
                var sections := FullSections(head + 1, sectionSize);
                && knownSections == (if sections < old(knownSections) then sections else old(knownSections))
                && Now() == (if sections < old(storedSections) then Cut(old(Now()), sections) else old(Now()))
                && calls == (if sections < old(storedSections) then Logged(old(calls), old(Now()), sections, reset) else old(calls))
              else
                var sections := if head >= confirmsReq then FullSections(head + 1 - confirmsReq, sectionSize) else 0;
                && knownSections == (if sections > old(knownSections) then sections else old(knownSections))
                && Now() == old(Now()) && calls == old(calls)
    {
      hide ChainIndexer.Valid, Logged, Cut, FullSections;
      HeadBegin(head, reorg);
      if job.Calling? {
        FinishCall();
      }
    }

    /** Sections: rolls back to the last section whose head is canonical and reports it. */
    method Sections(chain: Chain) returns (sections: nat, last: nat, head: Hash)
      requires Valid() && job.Free?
      modifies this`storedSections, this`count, this`heads, this`cascadedHead, this`job, this`before, this`solid, this`calls, this`apart
      ensures Valid() && job.Free? && RolledBack(old(Now()), Now(), chain, sectionSize)
      ensures sections == storedSections && last == LastNumber(sections, sectionSize) && head == HeadOf(heads, Less(sections))
      ensures sections > 0 ==> head == chain(last)
    {
      hide ChainIndexer.Valid, Logged, Cut, LastNumber, RolledBack, Rolling;
      ghost var x0 := Now();
      SectionsBegin(chain);
      RollBackStart(x0, chain, sectionSize);
      while true
        invariant Valid() && job == Looking(chain, Test) && Rolling(x0, Now(), chain, sectionSize)
        decreases storedSections
      {
        var answer := Check();
        if answer.Some? {
          RollBackEnd(x0, Now(), chain, sectionSize);
          return answer.value.0, answer.value.1, answer.value.2;
        }
        RollBackMore(x0, Now(), chain, sectionSize);
        CutStored(Now(), storedSections - 1);
        FinishCall();
      }
    }

    // ---------- The update loop, which is the goroutine of the failing reset itself ----------

    /** setValidSections under the lock, while no reset is under way. */
    method SetValidSections(sections: nat)
      modifies this`storedSections, this`count, this`heads
      ensures Now() == Cut(old(Now()), sections)
    {
      count := sections;
      while storedSections > sections
        invariant count == sections && (storedSections >= sections || storedSections == old(storedSections))
        invariant storedSections <= old(storedSections)
        invariant heads == Dropped(old(heads), storedSections, old(storedSections))
      {
        storedSections := storedSections - 1;
        heads := heads - {storedSections};
      }
      storedSections := sections;
    }

    /** Rolls back to the last stored section whose head is still canonical. */
    method VerifyLastHead(chain: Chain)
      requires Valid() && job.Free? && reset.Off?
      modifies this`storedSections, this`count, this`heads
      ensures Valid() && RolledBack(old(Now()), Now(), chain, sectionSize)
    {
      hide Accounted, Guarded, Between, Cut, LastNumber, RolledBack;
      ghost var x0 := Now();
      RollBackStart(x0, chain, sectionSize);
      while storedSections > 0
        invariant Valid() && Rolling(x0, Now(), chain, sectionSize)
      {
        if SectionHead(storedSections - 1) == chain(LastNumber(storedSections, sectionSize)) {
          RollBackEnd(x0, Now(), chain, sectionSize);
          return;
        }
        RollBackMore(x0, Now(), chain, sectionSize);
        RollBackKeeps(storedSections - 1);
        SetValidSections(storedSections - 1);
      }
      RollBackEnd(x0, Now(), chain, sectionSize);
    }

    lemma RollBackKeeps(n: nat)
      requires Valid() && job.Free? && reset.Off? && n < storedSections
      ensures Sane(Cut(Now(), n)) && Cut(Now(), n).stored == n
      ensures clean ==> Accounted(Cut(Now(), n), reset, calls)
      ensures clean && update.Processing? && !update.failed ==> Guarded(Cut(Now(), n), update.section, update.oldHead)
    {
      if clean {
        CutIndexed(Now(), n);
        if update.Processing? && !update.failed {
          CutGuards(Now(), n, update.section, update.oldHead);
        }
      }
    }

    /** The first locked part of the update loop. */
    method UpdateBegin(chain: Chain)
      requires Valid() && job.Free? && update.Idle?
      modifies this`storedSections, this`count, this`heads, this`update
      ensures Valid()
      ensures if old(knownSections > storedSections) then
                && update == Processing(storedSections, if storedSections > 0 then HeadOf(heads, storedSections - 1) else ZERO_HASH, false)
                && RolledBack(old(Now()), Now(), chain, sectionSize)
              else update.Idle? && Now() == old(Now())
    {
      hide Accounted, Between, LastNumber;
      if knownSections > storedSections {
        VerifyLastHead(chain);
        Remember();
        update := Processing(storedSections, if storedSections > 0 then SectionHead(storedSections - 1) else ZERO_HASH, false);
      }
    }

    lemma Remember()
      requires Valid() && job.Free? && reset.Off?
      ensures clean ==> Guarded(Now(), storedSections, if storedSections > 0 then HeadOf(heads, storedSections - 1) else ZERO_HASH)
    {
    }

    /** The second locked part: the section is committed exactly when processing succeeded and the remembered head is still
        there, which in an index in step means that the stored sections are still those processing started on. */
    method UpdateEnd(result: Option<Hash>, chain: Chain) returns (committed: bool)
      requires Valid() && job.Free? && update.Processing? && reset.Off? && (update.failed ==> result == None)
      requires result.Some? ==> result.value != ZERO_HASH
      modifies this`storedSections, this`count, this`heads, this`update, this`knownSections, this`cascadedHead
      ensures Valid() && update == Idle
      ensures committed <==> result.Some? && (old(update.section) == 0 || HeadOf(old(heads), old(update.section) - 1) == old(update.oldHead))
      ensures clean ==> (committed <==> result.Some? && old(storedSections) == old(update.section))
      ensures if committed then
                && knownSections == old(knownSections)
                && Now() == Cut(old(Now()).(heads := old(heads)[old(update.section) := result.value]), old(update.section) + 1)
              else knownSections == storedSections && RolledBack(old(Now()), Now(), chain, sectionSize)
    {
      hide Between, LastNumber, RolledBack;
      var section, oldHead := update.section, update.oldHead;
      committed := result.Some? && (section == 0 || oldHead == SectionHead(section - 1));
      update := Idle;
      if committed {
        heads := heads[section := result.value];
        SetValidSections(section + 1);
        cascadedHead := LastNumber(storedSections, sectionSize);
      } else {
        VerifyLastHead(chain);
        knownSections := storedSections;
      }
    }
  }

  // ---------- verifyLastHead ----------

  /** Only the sections up to the last one with a canonical head are left. */
  ghost predicate RolledBack(x0: Index, x: Index, chain: Chain, size: nat) {
    && x.stored <= x0.stored && x.heads == Dropped(x0.heads, x.stored, x0.stored)
    && (x.stored > 0 ==> Matches(x.heads, chain, size, x.stored))
    && (forall s :: x.stored < s <= x0.stored ==> !Matches(x0.heads, chain, size, s))
    && x.count == if x.stored == x0.stored then x0.count else x.stored
  }

  ghost predicate Rolling(x0: Index, x: Index, chain: Chain, size: nat) {
    && x.stored <= x0.stored && x.heads == Dropped(x0.heads, x.stored, x0.stored)
    && (forall s :: x.stored < s <= x0.stored ==> !Matches(x0.heads, chain, size, s))
    && x.count == if x.stored == x0.stored then x0.count else x.stored
  }

  lemma RollBackStart(x: Index, chain: Chain, size: nat)
    ensures Rolling(x, x, chain, size)
  {
    DropNothing(x.heads, x.stored);
  }

  lemma MatchFacts(x0: Index, x: Index, chain: Chain, size: nat)
    requires Rolling(x0, x, chain, size) && x.stored > 0
    ensures Matches(x.heads, chain, size, x.stored) <==> Matches(x0.heads, chain, size, x.stored)
  {
    hide LastNumber;
  }

  lemma RollBackMore(x0: Index, x: Index, chain: Chain, size: nat)
    requires Rolling(x0, x, chain, size) && x.stored > 0 && !Matches(x.heads, chain, size, x.stored)
    ensures Rolling(x0, Cut(x, x.stored - 1), chain, size)
  {
    hide LastNumber;
    MatchFacts(x0, x, chain, size);
    DropAgain(x0.heads, x.stored - 1, x.stored, x0.stored);
  }

  lemma RollBackEnd(x0: Index, x: Index, chain: Chain, size: nat)
    requires Rolling(x0, x, chain, size) && (x.stored > 0 ==> Matches(x.heads, chain, size, x.stored))
    ensures RolledBack(x0, x, chain, size)
  {
  }

  lemma CutStored(x: Index, n: nat)
    ensures Cut(x, n).stored == n
  {
  }

  lemma NoCalls()
    ensures Undisturbed([])
  {
  }

  /** processSection: the blocks of the section are read one by one while the chain may change.
      The result is the hash of the last block, which is never zero. */
  method ProcessSection(section: nat, sectionSize: nat, read: Chain, known: Hash -> bool, accepts: Hash -> bool, commits: bool)
    returns (r: Option<Hash>)
    requires sectionSize > 0
    ensures var first := section * sectionSize;
      && (r.Some? ==> r.value != ZERO_HASH && r.value == read(first + sectionSize - 1))
      && (r.Some? <==> commits && forall number :: first <= number < first + sectionSize ==> Readable(read(number), known, accepts))
  {
    var lastHead := ZERO_HASH;
    var first := section * sectionSize;
    for number := first to first + sectionSize
      invariant forall k :: first <= k < number ==> Readable(read(k), known, accepts)
      invariant number > first ==> lastHead == read(number - 1) && lastHead != ZERO_HASH
    {
      var hash := read(number);
      if hash == ZERO_HASH || !known(hash) || !accepts(hash) {
        return None;
      }
      lastHead := hash;
    }
    if !commits {
      return None;
    }
    return Some(lastHead);
  }

  predicate Readable(hash: Hash, known: Hash -> bool, accepts: Hash -> bool) {
    hash != ZERO_HASH && known(hash) && accepts(hash)
  }

  // ---------- Runs ----------

  /** What may happen, with the chain as it is at that moment. */
  datatype Event =
    | HeadEvent(head: nat, reorg: bool)
    | SectionsEvent(chain: Chain)
    | LockedEvent
    | BeginEvent(chain: Chain)
    | EndEvent(read: Chain, known: Hash -> bool, accepts: Hash -> bool, commits: bool, chain: Chain)
    | ResetEvent

  /** Every interleaving of single reads and writes, with one updater. As long as no locked call and no failing reset
      overlap every stored section has its head. Whenever neither is under way heads, stored sections and count are in
      step, if no step of a failing reset fell into a locked call and the locked calls inside one did not disturb it. */
  method Run(indexer: ChainIndexer, events: seq<Event>)
    requires indexer.Valid()
    modifies indexer
    ensures indexer.Valid()
    ensures indexer.apart ==> indexer.clean && Backed(indexer.Now())
    ensures indexer.clean && indexer.reset.Off? && !indexer.job.Calling? ==> Indexed(indexer.Now())
    ensures old(indexer.apart && indexer.reset.Off?) && ResetEvent !in events ==> indexer.apart && indexer.reset.Off?
  {
    hide ChainIndexer.Valid;
    for n := 0 to |events|
      invariant indexer.Valid()
      invariant old(indexer.apart && indexer.reset.Off?) && ResetEvent !in events ==> indexer.apart && indexer.reset.Off?
    {
      match events[n] {
        case HeadEvent(head, reorg) =>
          if indexer.job.Free? && head < WORD { indexer.HeadBegin(head, reorg); }
        case SectionsEvent(chain) =>
          if indexer.job.Free? { indexer.SectionsBegin(chain); }
        case LockedEvent =>
          if indexer.job.Looking? { var answer := indexer.LookStep(); }
          else if indexer.job.Calling? { indexer.CallStep(); }
        case BeginEvent(chain) =>
          if indexer.job.Free? && indexer.update.Idle? { indexer.UpdateBegin(chain); }
        case EndEvent(read, known, accepts, commits, chain) =>
          EndProcessing(indexer, read, known, accepts, commits, chain);
        case ResetEvent =>
          if indexer.reset.At? { indexer.ResetStep(); }
          else if indexer.update.Processing? && !indexer.update.failed { indexer.ResetFails(); }
      }
    }
    RunFacts(indexer);
  }

  method EndProcessing(indexer: ChainIndexer, read: Chain, known: Hash -> bool, accepts: Hash -> bool, commits: bool, chain: Chain)
    requires indexer.Valid()
    modifies indexer
    ensures indexer.Valid() && indexer.apart == old(indexer.apart) && indexer.reset == old(indexer.reset)
  {
    if indexer.job.Free? && indexer.update.Processing? && indexer.reset.Off? {
      var result := ProcessSection(indexer.update.section, indexer.sectionSize, read, known, accepts, commits);
      var committed := indexer.UpdateEnd(if indexer.update.failed then None else result, chain);
    }
  }

  lemma RunFacts(indexer: ChainIndexer)
    requires indexer.Valid()
    ensures indexer.apart ==> indexer.clean && Backed(indexer.Now())
    ensures indexer.clean && indexer.reset.Off? && !indexer.job.Calling? ==> Indexed(indexer.Now())
  {
    indexer.Facts();
  }

  // ---------- Failing resets that are disturbed ----------

  lemma OutOfStep(x: Index, s: nat)
    requires x.count != x.stored || (s in x.heads && x.stored <= s) || (s < x.stored && s !in x.heads)
    ensures !Indexed(x) && (s < x.stored && s !in x.heads ==> !Backed(x))
  {
  }

  method TwoSections() returns (indexer: ChainIndexer)
    ensures fresh(indexer) && indexer.Valid() && indexer.apart && indexer.sectionSize == 2 && indexer.confirmsReq == 0
    ensures indexer.Now() == Index(2, 2, map[0 := 2, 1 := 4]) && indexer.job == Free && indexer.reset == Off
    ensures indexer.update.Processing? && !indexer.update.failed
  {
    hide ChainIndexer.Valid, RolledBack;
    var chain: Chain := (n: nat) => n + 1;
    indexer := new ChainIndexer(2, 0);
    indexer.NewHead(9, false);
    ExtendByOne(indexer, chain);
    assert indexer.Now() == Index(1, 1, map[0 := 2]);
    ExtendByOne(indexer, chain);
    assert indexer.Now() == Index(2, 2, map[0 := 2, 1 := 4]);
    ghost var x := indexer.Now();
    indexer.UpdateBegin(chain);
    StaysPut(x, indexer.Now(), chain, 2);
  }

  /** One more section is processed, and nothing happens meanwhile. */
  method ExtendByOne(indexer: ChainIndexer, chain: Chain)
    requires indexer.Valid() && indexer.apart && indexer.job == Free && indexer.reset == Off && indexer.update == Idle
    requires indexer.knownSections > indexer.storedSections
    requires indexer.storedSections > 0 ==> Matches(indexer.heads, chain, indexer.sectionSize, indexer.storedSections)
    requires chain(LastNumber(indexer.storedSections + 1, indexer.sectionSize)) != ZERO_HASH
    modifies indexer
    ensures indexer.Valid() && indexer.apart && indexer.job == Free && indexer.reset == Off && indexer.update == Idle
    ensures indexer.knownSections == old(indexer.knownSections)
    ensures var s := old(indexer.storedSections);
      indexer.Now() == Index(s + 1, s + 1, old(indexer.heads)[s := chain(LastNumber(s + 1, indexer.sectionSize))])
  {
    hide ChainIndexer.Valid, RolledBack, Cut, LastNumber;
    ghost var x := indexer.Now();
    indexer.UpdateBegin(chain);
    StaysPut(x, indexer.Now(), chain, indexer.sectionSize);
    RunFacts(indexer);
    var head := chain(LastNumber(indexer.storedSections + 1, indexer.sectionSize));
    var committed := indexer.UpdateEnd(Some(head), chain);
    OneMore(x, head);
  }

  lemma StaysPut(x0: Index, x: Index, chain: Chain, size: nat)
    requires RolledBack(x0, x, chain, size) && (x0.stored > 0 ==> Matches(x0.heads, chain, size, x0.stored))
    ensures x == x0
  {
    hide LastNumber;
    DropNothing(x0.heads, x0.stored);
  }

  lemma OneMore(x: Index, head: Hash)
    ensures Cut(x.(heads := x.heads[x.stored := head]), x.stored + 1) == Index(x.stored + 1, x.stored + 1, x.heads[x.stored := head])
  {
  }

  /** A reorganisation to one section after the reset's first write leaves a count of one with nothing stored. */
  method LostCount() returns (indexer: ChainIndexer)
    ensures indexer.Valid() && indexer.reset == Off && indexer.job == Free && indexer.Now() == Index(0, 1, map[])
    ensures !Indexed(indexer.Now())
  {
    hide ChainIndexer.Valid, Logged, Undisturbed, Indexed, Backed;
    indexer := TwoSections();
    indexer.ResetFails();
    indexer.ResetStep();
    indexer.NewHead(1, true);
    assert indexer.Now() == Index(1, 1, map[0 := 2]);
    GiveUp(indexer);
    indexer.ResetStep();
    indexer.ResetStep();
    OutOfStep(indexer.Now(), 0);
  }

  /** The five steps in which a reset that finds sections left gives the last one up. */
  method GiveUp(indexer: ChainIndexer)
    requires indexer.Valid() && indexer.reset == At(Testing) && indexer.storedSections > 0
    modifies indexer`storedSections, indexer`count, indexer`heads, indexer`reset, indexer`solid, indexer`clean, indexer`apart
    ensures indexer.Valid() && indexer.reset == At(Testing)
    ensures var x := old(indexer.Now()); indexer.Now() == Index(x.stored - 1, x.count, x.heads - {x.stored - 1})
  {
    hide ChainIndexer.Valid, Logged, Undisturbed, Indexed, Backed;
    indexer.ResetStep();
    indexer.ResetStep();
    indexer.ResetStep();
    indexer.ResetStep();
    indexer.ResetStep();
  }

  /** A reorganisation between giving a section up and deleting its head leaves that head behind. */
  method LostHead() returns (indexer: ChainIndexer)
    ensures indexer.Valid() && indexer.reset == Off && indexer.job == Free && indexer.Now() == Index(0, 0, map[1 := 4])
    ensures !Indexed(indexer.Now())
  {
    hide ChainIndexer.Valid, Logged, Undisturbed, Indexed, Backed;
    indexer := TwoSections();
    indexer.ResetFails();
    Shrink(indexer);
    indexer.NewHead(0, true);
    assert indexer.Now() == Index(0, 0, map[1 := 4]);
    FromShrunk(indexer);
    assert map[1 := 4] - {0} == map[1 := 4];
    OutOfStep(indexer.Now(), 1);
  }

  /** The last steps of a reset that finds no section left after giving one up. */
  method FromShrunk(indexer: ChainIndexer)
    requires indexer.Valid() && indexer.reset == At(Shrunk) && indexer.storedSections == 0
    modifies indexer`storedSections, indexer`count, indexer`heads, indexer`reset, indexer`solid, indexer`clean, indexer`apart
    ensures indexer.Valid() && indexer.reset == Off && indexer.Now() == Index(0, old(indexer.count), old(indexer.heads) - {0})
  {
    hide ChainIndexer.Valid;
    indexer.ResetStep();
    indexer.ResetStep();
    indexer.ResetStep();
    indexer.ResetStep();
  }

  method Shrink(indexer: ChainIndexer)
    requires indexer.Valid() && indexer.reset == At(Counting) && indexer.storedSections > 0
    modifies indexer`storedSections, indexer`count, indexer`heads, indexer`reset, indexer`solid, indexer`clean, indexer`apart
    ensures indexer.Valid() && indexer.reset == At(Shrunk)
    ensures indexer.Now() == Index(old(indexer.storedSections) - 1, 0, old(indexer.heads))
  {
    hide ChainIndexer.Valid, Logged, Undisturbed, Indexed, Backed;
    indexer.ResetStep();
    indexer.ResetStep();
    indexer.ResetStep();
    indexer.ResetStep();
  }

  /** A whole failing reset inside a reorganisation to one section, before its last assignment: one section is stored,
      and neither its head nor the count is there. */
  method LostSection() returns (indexer: ChainIndexer)
    ensures indexer.Valid() && indexer.reset == Off && indexer.job == Free && indexer.Now() == Index(1, 0, map[])
    ensures !Backed(indexer.Now()) && !Indexed(indexer.Now())
  {
    hide ChainIndexer.Valid, Logged, Undisturbed, Indexed, Backed;
    indexer := TwoSections();
    indexer.HeadBegin(1, true);
    BeforeLast(indexer);
    indexer.FailedReset();
    assert indexer.heads == map[];
    indexer.CallStep();
    OutOfStep(indexer.Now(), 0);
  }

  /** The steps of a locked call that gives up one section, but for the last assignment. */
  method BeforeLast(indexer: ChainIndexer)
    requires indexer.Valid() && indexer.job.Calling? && indexer.job.stage == Counting && indexer.storedSections == indexer.job.n + 1
    modifies indexer`storedSections, indexer`count, indexer`heads, indexer`job, indexer`cascadedHead, indexer`calls, indexer`apart
    ensures indexer.Valid() && indexer.job == old(indexer.job).(stage := Assigning)
    ensures var n := old(indexer.job.n); indexer.Now() == Index(n, n, old(indexer.heads) - {n})
  {
    hide ChainIndexer.Valid, Logged, Undisturbed, Indexed, Backed;
    indexer.CallStep();
    indexer.CallStep();
    indexer.CallStep();
    indexer.CallStep();
    indexer.CallStep();
    indexer.CallStep();
    indexer.CallStep();
  }

  /** A whole failing reset inside a reorganisation to no section, after its test: the counter wraps around. */
  method WrappedCounter() returns (indexer: ChainIndexer)
    ensures indexer.Valid() && indexer.reset == Off && indexer.job.Calling? && indexer.Now() == Index(WORD - 1, 0, map[])
    ensures !Backed(indexer.Now())
  {
    hide ChainIndexer.Valid, Logged, Undisturbed, Indexed, Backed;
    indexer := TwoSections();
    indexer.HeadBegin(0, true);
    indexer.CallStep();
    indexer.CallStep();
    indexer.FailedReset();
    assert indexer.heads == map[];
    Decrement(indexer);
    OutOfStep(indexer.Now(), 0);
  }

  /** The decrement of a locked call. */
  method Decrement(indexer: ChainIndexer)
    requires indexer.Valid() && indexer.job.Calling? && indexer.job.stage == Tested
    modifies indexer`storedSections, indexer`count, indexer`heads, indexer`job, indexer`cascadedHead, indexer`calls, indexer`apart
    ensures indexer.Valid() && indexer.job == old(indexer.job).(stage := Shrunk)
    ensures indexer.Now() == old(indexer.Now()).(stored := Less(old(indexer.storedSections)))
  {
    hide ChainIndexer.Valid, Logged;
    indexer.CallStep();
    indexer.CallStep();
  }

  /** A whole failing reset inside a turn of `Sections`, before the read that starts the call: 2^64 - 1 sections are stored. */
  method WrappedCall(chain: Chain) returns (indexer: ChainIndexer)
    requires chain(3) != 4
    ensures indexer.Valid() && indexer.reset == Off && !indexer.job.Calling? && indexer.Now() == Index(WORD - 1, WORD - 1, map[])
    ensures !Backed(indexer.Now())
  {
    hide ChainIndexer.Valid, Logged, Undisturbed, Indexed, Backed;
    indexer := TwoSections();
    indexer.SectionsBegin(chain);
    BeforeDrop(indexer, chain);
    indexer.FailedReset();
    assert indexer.heads == map[];
    var answer := indexer.LookStep();
    RaiseTo(indexer);
    OutOfStep(indexer.Now(), 0);
  }

  /** A locked call for more sections than are stored. */
  method RaiseTo(indexer: ChainIndexer)
    requires indexer.Valid() && indexer.job.Calling? && indexer.job.stage == Counting && indexer.storedSections <= indexer.job.n
    modifies indexer`storedSections, indexer`count, indexer`heads, indexer`job, indexer`cascadedHead, indexer`calls, indexer`apart
    ensures indexer.Valid() && !indexer.job.Calling?
    ensures var n := old(indexer.job.n); indexer.Now() == Index(n, n, old(indexer.heads))
  {
    hide ChainIndexer.Valid, Logged, Cut;
    indexer.CallStep();
    indexer.CallStep();
    indexer.CallStep();
  }

  /** The reads of a turn that finds a section whose head is not canonical, but for the one that starts the call. */
  method BeforeDrop(indexer: ChainIndexer, chain: Chain)
    requires indexer.Valid() && indexer.job == Looking(chain, Test)
    requires indexer.storedSections > 0 && !Matches(indexer.heads, chain, indexer.sectionSize, indexer.storedSections)
    modifies indexer`job, indexer`before, indexer`solid
    ensures indexer.Valid() && indexer.job == Looking(chain, Drop)
  {
    hide ChainIndexer.Valid, LastNumber;
    var answer := indexer.LookStep();
    answer := indexer.LookStep();
    answer := indexer.LookStep();
    answer := indexer.LookStep();
  }
}
