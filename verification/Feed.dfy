/** Feed (event/feed.go): subscribing, sending and unsubscribing as atomic steps on the shared case lists. */
module Feeds {
  import opened Basics

  type Chan = nat

  /** Slot 0 of the send list receives removal requests; the other slots send. */
  datatype Case = RemovalCase | SendCase(ch: Chan)

  type CaseList = seq<Case>

  /** caseList.find */
  method Find(cs: CaseList, ch: Chan) returns (index: int)
    ensures -1 <= index < |cs|
    ensures if index == -1 then SendCase(ch) !in cs else cs[index] == SendCase(ch)
  {
    for i := 0 to |cs|
      invariant SendCase(ch) !in cs[..i]
    {
      if cs[i] == SendCase(ch) {
        return i;
      }
    }
    return -1;
  }

  /** caseList.delete */
  function Delete(cs: CaseList, index: nat): CaseList
    requires index < |cs|
  {
    cs[..index] + cs[index + 1..]
  }

  /** caseList.deactivate on the prefix of length `k`: the case moves to the end of the prefix, which shrinks. */
  function Deactivate(cs: CaseList, k: nat, index: nat): CaseList
    requires index < k <= |cs|
  {
    cs[index := cs[k - 1]][k - 1 := cs[index]]
  }

  lemma DeleteFacts(cs: CaseList, index: nat)
    requires NoDup(cs) && index < |cs|
    ensures NoDup(Delete(cs, index)) && |Delete(cs, index)| == |cs| - 1
    ensures forall c :: c in Delete(cs, index) <==> c in cs && c != cs[index]
  {
    var r := Delete(cs, index);
    forall c | c in cs && c != cs[index] ensures c in r {
      var i :| 0 <= i < |cs| && cs[i] == c;
      assert r[if i < index then i else i - 1] == c;
    }
  }

  /** A deletion from the sending part shortens it; one behind it does not touch it. */
  lemma DeleteParts(cs: CaseList, k: nat, index: nat)
    requires NoDup(cs) && index < |cs| && k <= |cs|
    ensures var k' := if index < k then k - 1 else k;
            var r := Delete(cs, index);
            && (forall c :: c in r[..k'] <==> c in cs[..k] && c != cs[index])
            && (forall c :: c in r[k'..] <==> c in cs[k..] && c != cs[index])
  {
    var r := Delete(cs, index);
    if index < k {
      assert r[..k - 1] == Delete(cs[..k], index) && r[k - 1..] == cs[k..];
      assert NoDup(cs[..k]);
      DeleteFacts(cs[..k], index);
      assert cs[..k][index] == cs[index] && cs[index] !in cs[k..];
    } else {
      assert r[..k] == cs[..k] && r[k..] == Delete(cs[k..], index - k);
      assert NoDup(cs[k..]);
      DeleteFacts(cs[k..], index - k);
      assert cs[k..][index - k] == cs[index] && cs[index] !in cs[..k];
    }
  }

  lemma DeactivateParts(cs: CaseList, k: nat, index: nat)
    requires NoDup(cs) && index < k <= |cs|
    ensures var r := Deactivate(cs, k, index);
            && NoDup(r) && |r| == |cs| && (forall c :: c in r <==> c in cs)
            && (index > 0 ==> r[0] == cs[0])
            && (forall c :: c in r[..k - 1] <==> c in cs[..k] && c != cs[index])
            && (forall c :: c in r[k - 1..] <==> c in cs[k..] || c == cs[index])
  {
    var r := Deactivate(cs, k, index);
    forall i ensures 0 <= i < |cs| ==> r[i] == cs[if i == index then k - 1 else if i == k - 1 then index else i] {
    }
    forall c ensures c in r <==> c in cs {
      if c in cs {
        var i :| 0 <= i < |cs| && cs[i] == c;
        assert r[if i == index then k - 1 else if i == k - 1 then index else i] == c;
      }
    }
    FrontAfter(cs, k, index);
    assert r[k - 1..] == [cs[index]] + cs[k..];
  }

  lemma FrontAfter(cs: CaseList, k: nat, index: nat)
    requires NoDup(cs) && index < k <= |cs|
    ensures forall c :: c in Deactivate(cs, k, index)[..k - 1] <==> c in cs[..k] && c != cs[index]
  {
    var front := Deactivate(cs, k, index)[..k - 1];
    forall c | c in front ensures c in cs[..k] && c != cs[index] {
      var i :| 0 <= i < k - 1 && front[i] == c;
      assert c == cs[if i == index then k - 1 else i];
      assert cs[if i == index then k - 1 else i] in cs[..k];
    }
    forall c | c in cs[..k] && c != cs[index] ensures c in front {
      var i :| 0 <= i < k && cs[..k][i] == c;
      assert front[if i == k - 1 then index else i] == c;
    }
  }

  // ---------- The protocol ----------

  /** Every active subscription is in exactly one of the two lists, once, and slot 0 is the removal case. */
  ghost predicate ListsOk(inbox: CaseList, cs: CaseList, live: set<Chan>, removing: set<Chan>) {
    && |cs| > 0 && cs[0] == RemovalCase && NoDup(cs)
    && NoDup(inbox) && RemovalCase !in inbox && (forall c :: c in inbox ==> c !in cs)
    && (forall ch :: ch in live <==> SendCase(ch) in inbox || SendCase(ch) in cs)
    && (forall ch :: ch in removing ==> SendCase(ch) in cs)
  }

  /** The first `k` cases still wait for the value, the others have it; nobody gets it twice. */
  ghost predicate SendOk(cs: CaseList, k: nat, nsent: nat, taken: set<Chan>, delivered: seq<Chan>, dropped: set<Chan>) {
    && 1 <= k <= |cs| && NoDup(delivered) && nsent == |delivered|
    && (forall ch :: ch in delivered ==> ch in taken)
    && (forall ch :: SendCase(ch) in cs[..k] <==> ch in taken && ch !in delivered && ch !in dropped)
    && (forall ch :: SendCase(ch) in cs[k..] <==> ch in delivered && ch !in dropped)
  }

  /** A channel taken over that did not have the value gets it. */
  ghost predicate Served(taken: set<Chan>, before: seq<Chan>, ch: Chan, after: seq<Chan>) {
    ch in taken && ch !in before && after == before + [ch]
  }

  /** Where the sender stands: idle, trying case `i` without blocking, or blocked in the select. */
  datatype Phase = Idle | Trying(k: nat, i: nat, nsent: nat) | Selecting(k: nat, nsent: nat)

  /** What a finished send did. */
  datatype Record = Record(taken: set<Chan>, delivered: seq<Chan>, dropped: set<Chan>, nsent: nat)

  class Feed {
    var inbox: CaseList
    var sendCases: CaseList
    var phase: Phase
    /** Subscriptions whose removal waits for the sender or the send lock. */
    var removing: set<Chan>
    // Active subscriptions, and the history of the current send: the channels it took over,
    // those it delivered to in order, and those removed meanwhile.
    ghost var live: set<Chan>
    ghost var taken: set<Chan>
    ghost var delivered: seq<Chan>
    ghost var dropped: set<Chan>
    // How many sends began, what each finished one did, and the channels whose removal was ever asked for.
    ghost var begun: nat
    ghost var finished: seq<Record>
    ghost var asked: set<Chan>

    ghost predicate Valid()
      reads this
    {
      && ListsOk(inbox, sendCases, live, removing)
      && (!phase.Idle? ==> SendOk(sendCases, phase.k, phase.nsent, taken, delivered, dropped))
      && (phase.Trying? ==> 1 <= phase.i <= phase.k)
      && begun == |finished| + (if phase.Idle? then 0 else 1)
      && removing <= asked && dropped <= asked
      && forall r :: r in finished ==> Complete(r.taken, r.delivered, r.dropped, r.nsent) && r.dropped <= asked
    }

    /** What every step that picks a case makes smaller. */
    ghost function Measure(): nat
      reads this
    {
      |sendCases| + if phase.Idle? then 0 else phase.k
    }

    constructor ()
      ensures Valid() && phase == Idle && live == {} && finished == [] && asked == {}
    {
      inbox, sendCases, phase, removing := [], [RemovalCase], Idle, {};
      live, taken, delivered, dropped := {}, {}, [], {};
      begun, finished, asked := 0, [], {};
    }

    lemma PhaseBounds()
      requires Valid()
      ensures !phase.Idle? ==> 1 <= phase.k <= |sendCases|
    {
    }

    /** Whether a channel is subscribed. */
    method Has(ch: Chan) returns (known: bool)
      requires Valid()
      ensures known <==> ch in live
    {
      var a := Find(inbox, ch);
      var b := Find(sendCases, ch);
      return a != -1 || b != -1;
    }

    method Subscribe(ch: Chan)
      requires Valid() && ch !in live
      modifies this`inbox, this`live
      ensures Valid() && live == old(live) + {ch}
    {
      inbox := inbox + [SendCase(ch)];
      live := live + {ch};
    }

    /** The part of `remove` under the mutex: a case still in the inbox goes at once. */
    method RemoveBegin(ch: Chan)
      requires Valid() && ch in live && ch !in removing
      modifies this`inbox, this`live, this`removing, this`asked
      ensures Valid() && asked == old(asked) + {ch}
      ensures if SendCase(ch) in old(inbox) then live == old(live) - {ch} && removing == old(removing)
              else live == old(live) && removing == old(removing) + {ch}
    {
      asked := asked + {ch};
      var index := Find(inbox, ch);
      if index != -1 {
        DeleteFacts(inbox, index);
        inbox := Delete(inbox, index);
        live := live - {ch};
        return;
      }
      removing := removing + {ch};
    }

    /** The rest of `remove` when no send is in progress. */
    method RemoveLocked(ch: Chan)
      requires Valid() && ch in removing && phase.Idle?
      modifies this`sendCases, this`live, this`removing
      ensures Valid() && live == old(live) - {ch} && removing == old(removing) - {ch}
    {
      var index := Find(sendCases, ch);
      DeleteFacts(sendCases, index);
      sendCases := Delete(sendCases, index);
      live, removing := live - {ch}, removing - {ch};
    }

    /** Takes the send lock and the inbox. */
    method SendBegin()
      requires Valid() && phase.Idle?
      modifies this`inbox, this`sendCases, this`phase, this`taken, this`delivered, this`dropped, this`begun
      ensures Valid() && phase == Trying(|sendCases|, 1, 0) && begun == old(begun) + 1
      ensures taken == live && delivered == [] && dropped == {}
    {
      hide ListsOk, SendOk;
      BeginFacts(inbox, sendCases, live, removing);
      sendCases := sendCases + inbox;
      inbox := [];
      phase := Trying(|sendCases|, 1, 0);
      taken, delivered, dropped, begun := live, [], {}, begun + 1;
    }

    /** One turn of the loop that tries to send without blocking. */
    method TrySend(accepted: bool)
      requires Valid() && phase.Trying? && phase.i < phase.k
      modifies this`sendCases, this`phase, this`delivered
      ensures Valid() && phase.Trying?
      ensures if accepted then
                && Measure() < old(Measure()) && phase.nsent == old(phase.nsent) + 1
                && old(sendCases[phase.i].SendCase?) && Served(taken, old(delivered), old(sendCases[phase.i]).ch, delivered)
              else phase == old(phase).(i := old(phase.i) + 1)
    {
      if accepted {
        var k, i, nsent := phase.k, phase.i, phase.nsent;
        Deliver(i);
        phase := Trying(k - 1, i, nsent + 1);
      } else {
        phase := phase.(i := phase.i + 1);
      }
    }

    /** A case takes the value and leaves the sending part. */
    method Deliver(index: nat)
      requires Valid() && !phase.Idle? && 1 <= index < phase.k
      modifies this`sendCases, this`delivered
      ensures ListsOk(inbox, sendCases, live, removing) && |sendCases| == |old(sendCases)|
      ensures SendOk(sendCases, phase.k - 1, phase.nsent + 1, taken, delivered, dropped)
      ensures old(sendCases)[index].SendCase? && Served(taken, old(delivered), old(sendCases)[index].ch, delivered)
    {
      hide Deactivate, ListsOk, SendOk;
      SendBounds(sendCases, phase.k, phase.nsent, taken, delivered, dropped);
      ghost var ch := CaseAt(inbox, sendCases, live, removing, index);
      DeliverFacts(inbox, sendCases, live, removing, phase.k, phase.nsent, taken, delivered, dropped, index, ch);
      sendCases := Deactivate(sendCases, phase.k, index);
      delivered := delivered + [ch];
    }

    /** After a round of tries: done when only the removal case is left, else block in the select. */
    method TriedAll() returns (done: bool, nsent: nat)
      requires Valid() && phase.Trying? && phase.i == phase.k
      modifies this`phase, this`finished
      ensures Valid() && nsent == old(phase.nsent)
      ensures done <==> old(phase.k) == 1
      ensures done ==> phase == Idle && Complete(taken, delivered, dropped, nsent)
      ensures done ==> finished == old(finished) + [Record(taken, delivered, dropped, nsent)]
      ensures !done ==> phase == Selecting(old(phase.k), nsent) && finished == old(finished)
    {
      nsent := phase.nsent;
      if phase.k == 1 {
        AllServed(sendCases, nsent, taken, delivered, dropped);
        phase := Idle;
        finished := finished + [Record(taken, delivered, dropped, nsent)];
        return true, nsent;
      }
      phase := Selecting(phase.k, phase.nsent);
      return false, nsent;
    }

    /** The select picks a waiting channel. */
    method SelectSend(chosen: nat)
      requires Valid() && phase.Selecting? && 1 <= chosen < phase.k
      modifies this`sendCases, this`phase, this`delivered
      ensures Valid() && phase.Trying? && phase.nsent == old(phase.nsent) + 1 && Measure() < old(Measure())
      ensures old(sendCases)[chosen].SendCase? && Served(taken, old(delivered), old(sendCases)[chosen].ch, delivered)
    {
      var k, nsent := phase.k, phase.nsent;
      Deliver(chosen);
      phase := Trying(k - 1, 1, nsent + 1);
    }

    /** The select picks slot 0: a channel asks to be removed. */
    method SelectRemove(ch: Chan)
      requires Valid() && phase.Selecting? && ch in removing
      modifies this`sendCases, this`phase, this`live, this`removing, this`dropped
      ensures Valid() && phase.Trying? && phase.nsent == old(phase.nsent) && Measure() < old(Measure())
      ensures live == old(live) - {ch} && removing == old(removing) - {ch} && dropped == old(dropped) + {ch}
    {
      hide Delete, ListsOk, SendOk;
      RemovingListed(inbox, sendCases, live, removing, ch);
      var index := Find(sendCases, ch);
      var k := if index < phase.k then phase.k - 1 else phase.k;
      DropFacts(inbox, sendCases, live, removing, phase.k, phase.nsent, taken, delivered, dropped, index, ch);
      sendCases := Delete(sendCases, index);
      live, removing, dropped := live - {ch}, removing - {ch}, dropped + {ch};
      phase := Trying(k, 1, phase.nsent);
    }
  }

  datatype Event =
    | SubscribeEvent(ch: Chan)
    | RemoveEvent(ch: Chan)
    | LockedEvent(ch: Chan)
    | SendEvent
    | TryEvent(accepted: bool)
    | RoundEvent
    | PickEvent(chosen: nat)
    | RemovalEvent(ch: Chan)

  /** The channels whose removal the events ask for. */
  ghost function Requested(events: seq<Event>): set<Chan> {
    set e | e in events && e.RemoveEvent? :: e.ch
  }

  /** Any interleaving: an event whose guard does not hold blocks and is passed over.
      Every send that began has ended, but for one under way, and every send that ended has delivered to all it took
      over, but for those removed, whose removal was asked for. */
  method Run(feed: Feed, events: seq<Event>) returns (ghost sends: seq<Record>)
    requires feed.Valid()
    modifies feed
    ensures feed.Valid() && feed.finished == old(feed.finished) + sends
    ensures feed.begun - old(feed.begun) == |sends| + (if feed.phase.Idle? then 0 else 1) - old(if feed.phase.Idle? then 0 else 1)
    ensures forall r :: r in sends ==> Complete(r.taken, r.delivered, r.dropped, r.nsent) && r.dropped <= old(feed.asked) + Requested(events)
  {
    hide ListsOk, SendOk, Complete, Requested;
    sends := [];
    NoneRequested();
    for n := 0 to |events|
      invariant feed.Valid() && feed.finished == old(feed.finished) + sends && feed.asked <= old(feed.asked) + Requested(events[..n])
    {
      feed.PhaseBounds();
      RequestedMore(events, n);
      match events[n] {
        case SubscribeEvent(ch) =>
          var known := feed.Has(ch);
          if !known { feed.Subscribe(ch); }
        case RemoveEvent(ch) =>
          var known := feed.Has(ch);
          if known && ch !in feed.removing { feed.RemoveBegin(ch); }
        case LockedEvent(ch) =>
          if ch in feed.removing && feed.phase.Idle? { feed.RemoveLocked(ch); }
        case SendEvent =>
          if feed.phase.Idle? { feed.SendBegin(); }
        case TryEvent(accepted) =>
          if feed.phase.Trying? && feed.phase.i < feed.phase.k { feed.TrySend(accepted); }
        case RoundEvent =>
          if feed.phase.Trying? && feed.phase.i == feed.phase.k {
            var done, nsent := feed.TriedAll();
            sends := feed.finished[|old(feed.finished)|..];
          }
        case PickEvent(chosen) =>
          if feed.phase.Selecting? && 1 <= chosen < feed.phase.k { feed.SelectSend(chosen); }
        case RemovalEvent(ch) =>
          if feed.phase.Selecting? && ch in feed.removing { feed.SelectRemove(ch); }
      }
    }
    assert events[..|events|] == events;
  }

  lemma NoneRequested()
    ensures Requested([]) == {}
  {
  }

  lemma RequestedMore(events: seq<Event>, n: nat)
    requires n < |events|
    ensures Requested(events[..n + 1]) == Requested(events[..n]) + (if events[n].RemoveEvent? then {events[n].ch} else {})
  {
    assert events[..n + 1] == events[..n] + [events[n]];
  }

  /** Every channel taken over got the value exactly once, or was removed before; the count is right. */
  ghost predicate Complete(taken: set<Chan>, delivered: seq<Chan>, dropped: set<Chan>, nsent: nat) {
    && nsent == |delivered| && NoDup(delivered)
    && (forall ch :: ch in delivered ==> ch in taken)
    && (forall ch :: ch in taken && ch !in dropped ==> ch in delivered)
  }

  lemma AllServed(cs: CaseList, nsent: nat, taken: set<Chan>, delivered: seq<Chan>, dropped: set<Chan>)
    requires SendOk(cs, 1, nsent, taken, delivered, dropped) && |cs| > 0 && cs[0] == RemovalCase
    ensures Complete(taken, delivered, dropped, nsent)
  {
    assert cs[..1] == [RemovalCase];
    forall ch | ch in taken && ch !in dropped ensures ch in delivered {
      assert SendCase(ch) !in cs[..1];
    }
  }

  lemma BeginFacts(inbox: CaseList, cs: CaseList, live: set<Chan>, removing: set<Chan>)
    requires ListsOk(inbox, cs, live, removing)
    ensures ListsOk([], cs + inbox, live, removing) && |cs + inbox| >= 1
    ensures SendOk(cs + inbox, |cs + inbox|, 0, live, [], {})
  {
    var all := cs + inbox;
    assert all[..|all|] == all && all[|all|..] == [];
    forall i, j | 0 <= i < j < |all| ensures all[i] != all[j] {
      if i < |cs| <= j {
        assert all[i] in cs && inbox[j - |cs|] in inbox;
      }
    }
  }

  lemma SendBounds(cs: CaseList, k: nat, nsent: nat, taken: set<Chan>, delivered: seq<Chan>, dropped: set<Chan>)
    requires SendOk(cs, k, nsent, taken, delivered, dropped)
    ensures 1 <= k <= |cs|
  {
  }

  lemma CaseAt(inbox: CaseList, cs: CaseList, live: set<Chan>, removing: set<Chan>, index: nat) returns (ch: Chan)
    requires ListsOk(inbox, cs, live, removing) && 1 <= index < |cs|
    ensures cs[index] == SendCase(ch)
  {
    assert cs[0] != cs[index];
    ch := cs[index].ch;
  }

  lemma RemovingListed(inbox: CaseList, cs: CaseList, live: set<Chan>, removing: set<Chan>, ch: Chan)
    requires ListsOk(inbox, cs, live, removing) && ch in removing
    ensures SendCase(ch) in cs
  {
  }

  lemma DeliverFacts(inbox: CaseList, cs: CaseList, live: set<Chan>, removing: set<Chan>,
                     k: nat, nsent: nat, taken: set<Chan>, delivered: seq<Chan>, dropped: set<Chan>, index: nat, ch: Chan)
    requires ListsOk(inbox, cs, live, removing) && SendOk(cs, k, nsent, taken, delivered, dropped)
    requires 1 <= index < k && cs[index] == SendCase(ch)
    ensures ListsOk(inbox, Deactivate(cs, k, index), live, removing)
    ensures SendOk(Deactivate(cs, k, index), k - 1, nsent + 1, taken, delivered + [ch], dropped)
    ensures |Deactivate(cs, k, index)| == |cs| && ch in taken && ch !in delivered
  {
    DeactivateParts(cs, k, index);
    assert cs[index] in cs[..k];
    hide Deactivate;
  }

  lemma DropFacts(inbox: CaseList, cs: CaseList, live: set<Chan>, removing: set<Chan>,
                  k: nat, nsent: nat, taken: set<Chan>, delivered: seq<Chan>, dropped: set<Chan>, index: nat, ch: Chan)
    requires ListsOk(inbox, cs, live, removing) && SendOk(cs, k, nsent, taken, delivered, dropped)
    requires index < |cs| && cs[index] == SendCase(ch)
    ensures ListsOk(inbox, Delete(cs, index), live - {ch}, removing - {ch})
    ensures SendOk(Delete(cs, index), if index < k then k - 1 else k, nsent, taken, delivered, dropped + {ch})
    ensures |Delete(cs, index)| == |cs| - 1 && (index < k ==> k > 1) && k >= 1
  {
    assert index > 0 && cs[index] in cs;
    assert Delete(cs, index)[0] == cs[0];
    DeleteFacts(cs, index);
    DeleteParts(cs, k, index);
    hide Delete;
  }
}
