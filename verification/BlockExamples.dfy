/** A block that verification accepts although one of its parents is an ancestor of another (core/blockchain.go). */
module BlockExamples {
  import opened Transactions
  import opened Dag
  import opened HeaderChains
  import opened Heights
  import opened Insertion
  import opened BlockTips
  import opened BlockChains
  import opened BlockVerify

  /** Genesis 0, its child 1, finalised with number 1, and over that checkpoint 2 on 1 and 3 on 2. */
  function Ladder(): Store {
    map[0 := Header([], 0, 0, 0, 0), 1 := Header([0], 1, 1, 0, 1), 2 := Header([1], 2, 2, 1, 0), 3 := Header([2], 3, 3, 1, 0)]
  }

  /** On its checkpoint and on the top of the ladder. */
  function Shortcut(): Header {
    Header([1, 3], 4, 4, 1, 0)
  }

  lemma LadderOrdered()
    ensures SlotsDescend(Ladder())
  {
  }

  lemma LadderOneCp(h: Hash)
    requires h == 1 || h == 2 || h == 3
    ensures OneCp(Ladder(), 0, Ladder()[h])
  {
  }

  lemma LadderPast(x: Hash)
    ensures x !in Past(Ladder(), 0)
    ensures x in Past(Ladder(), 1) <==> x == 0
    ensures x in Past(Ladder(), 2) <==> x == 0 || x == 1
    ensures x in Past(Ladder(), 3) <==> x == 0 || x == 1 || x == 2
  {
    hide Reach;
    var keys := Ladder().Keys;
    ReachUnfold(Ladder(), keys, 0, x);
    ReachUnfold(Ladder(), keys, 1, x);
    ReachUnfold(Ladder(), keys, 2, x);
    ReachUnfold(Ladder(), keys, 3, x);
    ReachOne(Ladder(), keys, 0, x);
    ReachOne(Ladder(), keys, 1, x);
    ReachOne(Ladder(), keys, 2, x);
  }

  lemma LadderCheckpoint(cp: Hash)
    requires cp == 0 || cp == 1
    ensures Checkpoint(Ladder(), cp)
  {
    hide Past;
    forall x ensures x !in Past(Ladder(), 0) && (x in Past(Ladder(), 1) <==> x == 0) {
      LadderPast(x);
    }
  }

  lemma LadderReach(x: Hash)
    ensures var inner := Expanding(Ladder(), 1);
      && (x in inner <==> x == 2 || x == 3)
      && (Reach(Ladder(), inner, 1, x) <==> x == 1)
      && (Reach(Ladder(), inner, 2, x) <==> x == 2 || x == 1)
      && (Reach(Ladder(), inner, 3, x) <==> x == 3 || x == 2 || x == 1)
  {
    hide Reach;
    var inner := Expanding(Ladder(), 1);
    ReachUnfold(Ladder(), inner, 1, x);
    ReachUnfold(Ladder(), inner, 2, x);
    ReachUnfold(Ladder(), inner, 3, x);
    ReachOne(Ladder(), inner, 1, x);
    ReachOne(Ladder(), inner, 2, x);
  }

  lemma LadderSearch()
    ensures SearchSet(Ladder(), 0, [0]) == {} && SearchSet(Ladder(), 1, [1]) == {} && SearchSet(Ladder(), 1, [2]) == {2}
    ensures SearchSet(Ladder(), 1, [1, 3]) == {2, 3}
  {
    hide Reach, Expanding;
    CpAlone(Ladder(), 0);
    CpAlone(Ladder(), 1);
    forall x ensures (x in SearchSet(Ladder(), 1, [2]) <==> x == 2) && (x in SearchSet(Ladder(), 1, [1, 3]) <==> x == 2 || x == 3) {
      LadderReach(x);
      assert 2 in [2] && 1 in [1, 3] && 3 in [1, 3];
    }
  }

  lemma LadderVerified()
    ensures AllVerified(Ladder(), 0)
  {
    hide Past, SearchSet, Checkpoint;
    LadderCheckpoint(0);
    LadderCheckpoint(1);
    LadderPast(0);
    LadderPast(1);
    LadderSearch();
  }

  /** Block 1 is an ancestor of block 3 and its checkpoint, and the answer for it is no. */
  lemma UnseenCheckpoint()
    ensures 1 in Past(Ladder(), 3) && !Answered(Ladder(), 0, 3, 1)
    ensures OnOwnCp(Ladder(), 0, Shortcut().parents)
    ensures !Apart(Ladder(), Shortcut().parents) && Unrelated(Ladder(), 0, Shortcut().parents) && ParentsFine(Ladder(), Shortcut())
  {
    hide Past;
    LadderPast(1);
    assert 1 in [1, 3] && 3 in [1, 3];
  }

  lemma ShortcutPasses()
    ensures Passes(Ladder(), 0, Shortcut()) && Upon(Ladder(), Shortcut())
  {
    hide Past, SearchSet, Unrelated, Apart, ParentsFine, OnOwnCp;
    UnseenCheckpoint();
    LadderSearch();
    assert |{2, 3}| == 2;
  }

  /** Verification accepts the shortcut. */
  method AcceptsShortcut(bc: BlockChain) returns (r: Verdict)
    requires bc.GraphOk() && bc.hc.genesis == 0 && bc.hc.store == Ladder() && bc.dags.Keys == Ladder().Keys
    modifies bc`dags, bc.hc`ancestorCache
    ensures r == Fine && bc.hc.store == Ladder() && 1 in Shortcut().parents && 3 in Shortcut().parents && 1 in Past(Ladder(), 3)
  {
    hide BlockChain.GraphOk, Past, Passes, AllVerified, SlotsDescend, OneCp, Checkpoint, Apart, RightBlock, OnOwnCp;
    LadderOrdered();
    LadderOneCp(1);
    LadderOneCp(2);
    LadderOneCp(3);
    LadderVerified();
    LadderCheckpoint(1);
    LadderPast(1);
    ShortcutPasses();
    r := VerifyBlock(bc, Shortcut(), {});
  }
}
