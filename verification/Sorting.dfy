/** Ascending integers: what the standard library's sort and dedup do. */
module Sorting {

  predicate Ascending(s: seq<int>) {
    forall i, j :: 0 <= i < j < |s| ==> s[i] <= s[j]
  }

  predicate StrictlyAscending(s: seq<int>) {
    forall i, j :: 0 <= i < j < |s| ==> s[i] < s[j]
  }

  function Insert(s: seq<int>, x: int): (r: seq<int>)
    requires Ascending(s)
    ensures Ascending(r) && forall y :: y in r ==> y in s || y == x
  {
    if s == [] || x <= s[0] then [x] + s
    else
      var r := Insert(s[1..], x);
      assert forall i :: 0 <= i < |r| ==> r[i] in s[1..] || r[i] == x;
      [s[0]] + r
  }

  lemma {:induction false} InsertKeeps(s: seq<int>, x: int)
    requires Ascending(s)
    ensures multiset(Insert(s, x)) == multiset(s) + multiset{x}
  {
    if s == [] || x <= s[0] {
      assert multiset([x] + s) == multiset{x} + multiset(s);
    } else {
      InsertKeeps(s[1..], x);
      var h, t, r := s[0], s[1..], Insert(s[1..], x);
      assert s == [h] + t && multiset([h] + t) == multiset{h} + multiset(t);
      assert multiset([h] + r) == multiset{h} + multiset(r);
    }
  }

  function Sort(s: seq<int>): (r: seq<int>)
    ensures Ascending(r) && multiset(r) == multiset(s)
  {
    if s == [] then []
    else
      assert s == [s[0]] + s[1..];
      InsertKeeps(Sort(s[1..]), s[0]);
      Insert(Sort(s[1..]), s[0])
  }

  lemma SortMembers(s: seq<int>)
    ensures |Sort(s)| == |s| && forall x :: x in Sort(s) <==> x in s
  {
    assert |multiset(Sort(s))| == |Sort(s)| && |multiset(s)| == |s|;
    forall x ensures x in Sort(s) <==> x in s {
      assert x in Sort(s) <==> x in multiset(Sort(s));
      assert x in s <==> x in multiset(s);
    }
  }

  /** Sorting distinct numbers leaves each once, in strictly ascending order. */
  lemma SortDistinct(s: seq<int>)
    requires forall i, j :: 0 <= i < j < |s| ==> s[i] != s[j]
    ensures StrictlyAscending(Sort(s))
  {
    var r := Sort(s);
    DistinctOnce(s);
    forall i, j | 0 <= i < j < |r| ensures r[i] < r[j] {
      if r[i] == r[j] {
        TwiceAtLeast(r, i, j);
      }
    }
  }

  lemma {:induction false} DistinctOnce(s: seq<int>)
    requires forall i, j :: 0 <= i < j < |s| ==> s[i] != s[j]
    ensures forall x :: multiset(s)[x] <= 1
  {
    if s != [] {
      DistinctOnce(s[1..]);
      assert s == [s[0]] + s[1..];
      assert s[0] !in s[1..];
      assert s[0] !in multiset(s[1..]);
    }
  }

  lemma TwiceAtLeast(s: seq<int>, i: nat, j: nat)
    requires i < j < |s| && s[i] == s[j]
    ensures multiset(s)[s[i]] >= 2
  {
    assert s == s[..j] + [s[j]] + s[j + 1..];
    assert s[..j][i] in multiset(s[..j]);
  }

  /** Drops repeats of what precedes; of a sorted sequence each number is left
      once. */
  function Dedup(s: seq<int>): (r: seq<int>)
    requires Ascending(s)
    ensures StrictlyAscending(r) && (forall x :: x in r <==> x in s)
  {
    if |s| <= 1 then s
    else
      var rest := Dedup(s[1..]);
      assert s == [s[0]] + s[1..] && s[1] in s[1..];
      assert forall i :: 0 <= i < |rest| ==> rest[i] in s[1..];
      if s[0] == s[1] then rest else
        assert forall i :: 0 <= i < |rest| ==> s[0] < rest[i] by {
          assert forall x :: x in s[1..] ==> s[1] <= x;
        }
        [s[0]] + rest
  }
}
