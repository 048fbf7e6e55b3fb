/** HashArray (common/types.go): lists of hashes used as sets. */
module HashArrays {
  import opened Basics
  import opened Transactions

  /** The first occurrence of every element, in order. */
  function FirstOccurrences(s: seq<Hash>): seq<Hash> {
    if s == [] then [] else
      var front := FirstOccurrences(s[..|s| - 1]);
      var x := s[|s| - 1];
      if x in s[..|s| - 1] then front else front + [x]
  }

  /** Same elements, none twice. */
  lemma {:induction false} FirstOccurrencesFacts(s: seq<Hash>)
    ensures NoDup(FirstOccurrences(s)) && |FirstOccurrences(s)| <= |s|
    ensures forall x :: x in FirstOccurrences(s) <==> x in s
  {
    if s != [] {
      var k := |s| - 1;
      FirstOccurrencesFacts(s[..k]);
      assert s == s[..k] + [s[k]];
    }
  }

  /** Exactly the lists without duplicates are left alone. */
  lemma {:induction false} NoDupIsKept(s: seq<Hash>)
    ensures NoDup(s) <==> FirstOccurrences(s) == s
  {
    FirstOccurrencesFacts(s);
    if NoDup(s) && s != [] {
      var k := |s| - 1;
      NoDupIsKept(s[..k]);
      assert s == s[..k] + [s[k]];
    }
  }

  function Without(s: seq<Hash>, gone: set<Hash>): seq<Hash> {
    if s == [] then [] else
      Without(s[..|s| - 1], gone) + (if s[|s| - 1] in gone then [] else [s[|s| - 1]])
  }

  /** What remains is in the list and not among the removed; duplicates are never made. */
  lemma {:induction false} WithoutFacts(s: seq<Hash>, gone: set<Hash>)
    ensures forall x :: x in Without(s, gone) <==> x in s && x !in gone
    ensures NoDup(s) ==> NoDup(Without(s, gone))
  {
    if s != [] {
      var k := |s| - 1;
      var front := s[..k];
      WithoutFacts(front, gone);
      assert s == front + [s[k]];
      if NoDup(s) {
        assert NoDup(front) && s[k] !in front;
      }
    }
  }

  method Uniq(s: seq<Hash>) returns (c: seq<Hash>)
    ensures c == FirstOccurrences(s)
  {
    c := [];
    var m: set<Hash> := {};
    for i := 0 to |s|
      invariant m == Elements(s[..i]) && c == FirstOccurrences(s[..i])
    {
      Next(s, i);
      if s[i] !in m {
        c := c + [s[i]];
        m := m + {s[i]};
      }
    }
    assert s[..|s|] == s;
  }

  lemma Next(s: seq<Hash>, i: nat)
    requires i < |s|
    ensures s[..i + 1][..i] == s[..i] && s[..i + 1][i] == s[i]
    ensures Elements(s[..i + 1]) == Elements(s[..i]) + {s[i]}
    ensures s[i] in Elements(s[..i]) <==> s[i] in s[..i]
  {
    assert s[..i + 1] == s[..i] + [s[i]];
  }

  method Difference(s: seq<Hash>, other: seq<Hash>) returns (diff: seq<Hash>)
    ensures diff == Without(s, Elements(other))
  {
    var mb: set<Hash> := {};
    for i := 0 to |other|
      invariant mb == Elements(other[..i])
    {
      Next(other, i);
      mb := mb + {other[i]};
    }
    assert other[..|other|] == other;
    diff := [];
    for i := 0 to |s|
      invariant diff == Without(s[..i], mb)
    {
      Next(s, i);
      if s[i] !in mb {
        diff := diff + [s[i]];
      }
    }
    assert s[..|s|] == s;
  }

  /** In place: the kept prefix is written over the array while it is still being read. */
  method Deduplicate(a: array<Hash>) returns (j: nat)
    modifies a
    ensures j <= a.Length && a[..j] == FirstOccurrences(old(a[..])) && a[j..] == old(a[j..])
  {
    ghost var s := a[..];
    var m: set<Hash> := {};
    j := 0;
    for i := 0 to a.Length
      invariant j <= i && m == Elements(s[..i]) && a[..j] == FirstOccurrences(s[..i]) && a[j..] == s[j..]
    {
      Next(s, i);
      Unread(a[..], s, j, i);
      var item := a[i];
      if item !in m {
        Overwrite(a[..], s, j, item);
        a[j] := item;
        j := j + 1;
        m := m + {item};
      }
    }
    assert s[..a.Length] == s;
  }

  lemma Unread(now: seq<Hash>, s: seq<Hash>, j: nat, i: nat)
    requires j <= i < |s| == |now| && now[j..] == s[j..]
    ensures now[i] == s[i]
  {
    assert now[j..][i - j] == s[j..][i - j];
  }

  lemma Overwrite(now: seq<Hash>, s: seq<Hash>, j: nat, item: Hash)
    requires j < |s| == |now| && now[j..] == s[j..]
    ensures now[j := item][..j + 1] == now[..j] + [item]
    ensures now[j := item][j + 1..] == s[j + 1..]
  {
    assert now[j + 1..] == now[j..][1..] && s[j + 1..] == s[j..][1..];
  }

  method Has(s: seq<Hash>, hash: Hash) returns (found: bool)
    ensures found <==> hash in s
  {
    for i := 0 to |s|
      invariant hash !in s[..i]
    {
      if s[i] == hash {
        return true;
      }
    }
    return false;
  }
}
