/** Lists as multisets: where repeated elements are. */
module Bags {

  ghost predicate NoRepeats<T(!new)>(s: seq<T>) {
    forall i, j | 0 <= i < j < |s| :: s[i] != s[j]
  }

  lemma CountsTwice<T>(s: seq<T>, i: nat, j: nat)
    requires i < j < |s| && s[i] == s[j]
    ensures multiset(s)[s[i]] >= 2
  {
    assert s == s[..j] + s[j..];
    assert s[..j][i] == s[i] && s[j..][0] == s[i];
    assert s[i] in s[..j] && s[i] in s[j..];
  }

  lemma TwoPlaces<T>(s: seq<T>, x: T) returns (i: nat, j: nat)
    requires multiset(s)[x] >= 2
    ensures i < j < |s| && s[i] == x && s[j] == x
  {
    assert x in multiset(s);
    i :| 0 <= i < |s| && s[i] == x;
    var rest := s[..i] + s[i + 1..];
    assert s == s[..i] + [s[i]] + s[i + 1..];
    assert multiset(s) == multiset(rest) + multiset{x};
    assert x in rest;
    var k :| 0 <= k < |rest| && rest[k] == x;
    if k < i { i, j := k, i; } else { j := k + 1; }
  }

  /** Two positions of a part are two positions of the whole. */
  lemma PlacesInWhole<T>(part: seq<T>, whole: seq<T>, i: nat, j: nat) returns (a: nat, b: nat)
    requires multiset(part) <= multiset(whole) && i < j < |part|
    ensures a < |whole| && b < |whole| && a != b && whole[a] == part[i] && whole[b] == part[j]
  {
    if part[i] == part[j] {
      CountsTwice(part, i, j);
      a, b := TwoPlaces(whole, part[i]);
    } else {
      assert part[i] in multiset(part) && part[j] in multiset(part);
      assert part[i] in multiset(whole) && part[j] in multiset(whole);
      a :| 0 <= a < |whole| && whole[a] == part[i];
      b :| 0 <= b < |whole| && whole[b] == part[j];
    }
  }
}
