/** Transactions, and nonce-indexed collections of them as mathematical values. */
module Transactions {
  import opened Basics

  type Hash = nat

  const ZERO_HASH: Hash := 0

  type Address = nat

  /** The fields the pool looks at; `hash` is the content address of the whole transaction. */
  datatype Tx = Tx(hash: Hash, from: Address, nonce: nat, feeCap: nat, tipCap: nat, gas: nat, value: nat, size: nat) {
    function Cost(): nat {
      feeCap * gas + value
    }
  }

  const TX_SLOT_SIZE: nat := 32 * 1024

  function NumSlots(tx: Tx): nat {
    (tx.size + TX_SLOT_SIZE - 1) / TX_SLOT_SIZE
  }

  type Items = map<nat, Tx>

  ghost predicate Keyed(items: Items) {
    forall n :: n in items ==> items[n].nonce == n
  }

  // ---------- Sets of nonces in increasing order ----------

  ghost predicate Ascending(s: seq<nat>) {
    forall i, j :: 0 <= i < j < |s| ==> s[i] < s[j]
  }

  ghost predicate IsMin(s: set<nat>, m: nat) {
    m in s && forall k :: k in s ==> m <= k
  }

  lemma {:induction false} MinExists(s: set<nat>)
    requires s != {}
    ensures exists m :: IsMin(s, m)
  {
    var x :| x in s;
    var rest := s - {x};
    assert forall k :: k in s ==> k == x || k in rest;
    if rest == {} {
      assert IsMin(s, x);
    } else {
      MinExists(rest);
      var m :| IsMin(rest, m);
      assert IsMin(s, if x < m then x else m);
    }
  }

  function Min(s: set<nat>): (m: nat)
    requires s != {}
    ensures IsMin(s, m)
  {
    MinExists(s);
    var m :| m in s && forall k :: k in s ==> m <= k;
    m
  }

  ghost predicate IsSortOf(r: seq<nat>, s: set<nat>) {
    Ascending(r) && Elements(r) == s && |r| == |s|
  }

  lemma {:induction false} SortExists(s: set<nat>)
    ensures exists r :: IsSortOf(r, s)
  {
    if s == {} {
      assert IsSortOf([], s);
    } else {
      var m := Min(s);
      SortExists(s - {m});
      var rest :| IsSortOf(rest, s - {m});
      ConsAscending(m, rest);
      assert IsSortOf([m] + rest, s);
    }
  }

  lemma ConsAscending(m: nat, rest: seq<nat>)
    requires Ascending(rest) && forall k :: k in Elements(rest) ==> m < k
    ensures Ascending([m] + rest) && Elements([m] + rest) == {m} + Elements(rest)
  {
    var r := [m] + rest;
    forall i, j | 0 <= i < j < |r| ensures r[i] < r[j] {
      assert r[j] == rest[j - 1] && rest[j - 1] in Elements(rest);
    }
  }

  ghost function SortedKeys(s: set<nat>): (r: seq<nat>)
    ensures Ascending(r) && Elements(r) == s && |r| == |s|
  {
    SortExists(s);
    var r :| IsSortOf(r, s);
    r
  }

  lemma TailElements(s: seq<nat>)
    requires Ascending(s) && s != []
    ensures Elements(s[1..]) == Elements(s) - {s[0]} && Ascending(s[1..])
  {
    forall x ensures x in Elements(s[1..]) <==> x in Elements(s) && x != s[0] {
      if x in s && x != s[0] {
        var k :| 0 <= k < |s| && s[k] == x;
        assert s[1..][k - 1] == x;
      }
    }
  }

  /** An increasing sequence is determined by its elements. */
  lemma {:induction false} AscendingUnique(a: seq<nat>, b: seq<nat>)
    requires Ascending(a) && Ascending(b) && Elements(a) == Elements(b)
    ensures a == b
  {
    PrefixCount(a, |a|);
    PrefixCount(b, |b|);
    assert a[..|a|] == a && b[..|b|] == b;
    if a != [] {
      assert a[0] in Elements(a);
      assert b[0] in Elements(b);
      var i :| 0 <= i < |b| && b[i] == a[0];
      var j :| 0 <= j < |a| && a[j] == b[0];
      assert a[0] == b[0];
      TailElements(a);
      TailElements(b);
      AscendingUnique(a[1..], b[1..]);
      assert a == [a[0]] + a[1..] && b == [b[0]] + b[1..];
    }
  }

  // ---------- Collections in nonce order ----------

  function Pick(items: Items, keys: seq<nat>): (r: seq<Tx>)
    requires forall n :: n in keys ==> n in items
  {
    seq(|keys|, i requires 0 <= i < |keys| => items[keys[i]])
  }

  /** The transactions of `items` by increasing nonce. */
  ghost function Sorted(items: Items): (r: seq<Tx>)
    ensures |r| == |items|
  {
    var keys := SortedKeys(items.Keys);
    assert forall n :: n in keys ==> n in Elements(keys);
    Pick(items, keys)
  }

  /** Any increasing enumeration of the keys gives the sorted form. */
  lemma SortedIs(items: Items, keys: seq<nat>)
    requires Ascending(keys) && Elements(keys) == items.Keys
    ensures forall n :: n in keys ==> n in items
    ensures Sorted(items) == Pick(items, keys)
  {
    AscendingUnique(keys, SortedKeys(items.Keys));
    forall n | n in keys ensures n in items { assert n in Elements(keys); }
  }

  function Below(items: Items, t: nat): Items {
    map n | n in items && n < t :: items[n]
  }

  function AtLeast(items: Items, t: nat): Items {
    map n | n in items && t <= n :: items[n]
  }

  function Select(items: Items, p: Tx -> bool): Items {
    map n | n in items && p(items[n]) :: items[n]
  }

  function Reject(items: Items, p: Tx -> bool): Items {
    map n | n in items && !p(items[n]) :: items[n]
  }

  /** How many entries have a nonce below `n`. */
  function Rank(items: Items, n: nat): nat {
    |Below(items, n)|
  }

  /** The `k` lowest-nonce entries, or all of them. */
  function Lowest(items: Items, k: nat): Items {
    map n | n in items && Rank(items, n) < k :: items[n]
  }

  lemma RankOfSorted(items: Items, keys: seq<nat>, i: nat)
    requires keys == SortedKeys(items.Keys) && i < |keys|
    ensures Rank(items, keys[i]) == i
  {
    PrefixCount(keys, i);
    forall m ensures m in items && m < keys[i] <==> m in Elements(keys[..i]) {
      if m in items && m < keys[i] {
        assert m in Elements(keys);
        var j :| 0 <= j < |keys| && keys[j] == m;
        assert keys[..i][j] == m;
      }
      if m in Elements(keys[..i]) {
        assert m in Elements(keys);
      }
    }
    assert Below(items, keys[i]).Keys == Elements(keys[..i]);
  }

  lemma LowestKeys(items: Items, k: nat)
    ensures var keys := SortedKeys(items.Keys);
      Lowest(items, k).Keys == Elements(if k <= |keys| then keys[..k] else keys)
  {
    var keys := SortedKeys(items.Keys);
    var low := if k <= |keys| then keys[..k] else keys;
    forall n ensures n in Lowest(items, k) <==> n in Elements(low) {
      if n in Elements(keys) {
        var i :| 0 <= i < |keys| && keys[i] == n;
        RankOfSorted(items, keys, i);
        assert i < k ==> low[i] == n;
        assert forall j :: 0 <= j < |low| ==> low[j] == keys[j];
      } else {
        assert forall j :: 0 <= j < |low| ==> low[j] in Elements(keys);
      }
    }
  }

  /** `Lowest` keeps `k` entries when there are as many, and keeps none while dropping a lower one. */
  lemma LowestFacts(items: Items, k: nat)
    ensures |Lowest(items, k)| == if k <= |items| then k else |items|
    ensures forall n, m :: n in Lowest(items, k) && m in items && m !in Lowest(items, k) ==> n < m
  {
    var keys := SortedKeys(items.Keys);
    var c := if k <= |keys| then k else |keys|;
    LowestKeys(items, k);
    assert keys[..|keys|] == keys;
    PrefixCount(keys, c);
    PrefixIsLower(keys, c);
    assert |Lowest(items, k)| == |Lowest(items, k).Keys|;
  }

  lemma PrefixIsLower(keys: seq<nat>, c: nat)
    requires Ascending(keys) && c <= |keys|
    ensures Elements(keys[..c]) <= Elements(keys)
    ensures forall n, m :: n in Elements(keys[..c]) && m in Elements(keys) && m !in Elements(keys[..c]) ==> n < m
  {
    assert forall j :: 0 <= j < c ==> keys[..c][j] == keys[j] && keys[j] in Elements(keys[..c]);
    forall n, m | n in Elements(keys[..c]) && m in Elements(keys) && m !in Elements(keys[..c]) ensures n < m {
      var i :| 0 <= i < c && keys[i] == n;
      var j :| 0 <= j < |keys| && keys[j] == m;
    }
  }

  lemma {:induction false} PrefixCount(keys: seq<nat>, c: nat)
    requires Ascending(keys) && c <= |keys|
    ensures |Elements(keys[..c])| == c
  {
    hide Elements;
    if c == 0 {
      NoPrefix(keys);
    } else {
      PrefixGrows(keys, c);
      PrefixCount(keys, c - 1);
    }
  }

  lemma NoPrefix(keys: seq<nat>)
    ensures Elements(keys[..0]) == {}
  {
  }

  lemma PrefixGrows(keys: seq<nat>, c: nat)
    requires Ascending(keys) && 0 < c <= |keys|
    ensures Elements(keys[..c]) == Elements(keys[..c - 1]) + {keys[c - 1]}
    ensures keys[c - 1] !in Elements(keys[..c - 1])
  {
    assert keys[..c] == keys[..c - 1] + [keys[c - 1]];
  }

  /** `n` is reached from `lo` through consecutive nonces that are all present. */
  predicate InRun(items: Items, lo: nat, n: nat) {
    lo <= n && forall k :: lo <= k <= n ==> k in items
  }

  /** The longest run of consecutive nonces from the lowest one, if that is not above `start`. */
  function ReadyRun(items: Items, start: nat): Items {
    if items.Keys == {} || start < Min(items.Keys) then map[]
    else map n | n in items && InRun(items, Min(items.Keys), n) :: items[n]
  }

  /** A cut at any nonce splits the sorted form into two sorted halves. */
  lemma SortedSplit(items: Items, low: Items, high: Items)
    requires low.Keys + high.Keys == items.Keys
    requires forall n, m :: n in low && m in high ==> n < m
    requires forall n :: n in low ==> low[n] == items[n]
    requires forall n :: n in high ==> high[n] == items[n]
    ensures Sorted(items) == Sorted(low) + Sorted(high)
  {
    var a, b := SortedKeys(low.Keys), SortedKeys(high.Keys);
    ConcatAscending(a, b);
    SortedIs(items, a + b);
    PickConcat(items, low, high, a, b);
  }

  lemma PickConcat(items: Items, low: Items, high: Items, a: seq<nat>, b: seq<nat>)
    requires forall n :: n in a ==> n in low && n in items && low[n] == items[n]
    requires forall n :: n in b ==> n in high && n in items && high[n] == items[n]
    ensures Pick(items, a + b) == Pick(low, a) + Pick(high, b)
  {
    var l, r := Pick(items, a + b), Pick(low, a) + Pick(high, b);
    forall i | 0 <= i < |l| ensures l[i] == r[i] {
      if i < |a| {
        assert a[i] in a;
      } else {
        assert b[i - |a|] in b;
      }
    }
  }

  lemma ConcatAscending(a: seq<nat>, b: seq<nat>)
    requires Ascending(a) && Ascending(b)
    requires forall n, m :: n in Elements(a) && m in Elements(b) ==> n < m
    ensures Ascending(a + b) && Elements(a + b) == Elements(a) + Elements(b)
  {
    forall i, j | 0 <= i < j < |a + b| ensures (a + b)[i] < (a + b)[j] {
      if i < |a| <= j {
        assert a[i] in Elements(a) && b[j - |a|] in Elements(b);
      }
    }
  }
}
