/** What the groups of an account are: exactly the linked groups, each once, in first-occurrence
    order, for any multiset and any order of join rows. */
module ManyToMany {
  import opened Schema
  import opened EagerSpec
  import opened Windows

  lemma {:induction false} JoinedExact(links: seq<Link>, firsts: seq<nat>, n: nat, account: int, p: nat)
    requires n <= |firsts| && forall j | 0 <= j < |firsts| :: firsts[j] < |links|
    ensures p in Joined(links, firsts, n, account) <==> p < n && Linked(links, account, IdOf(links[firsts[p]].group))
  {
    if n != 0 {
      JoinedExact(links, firsts, n - 1, account, p);
    }
  }

  lemma {:induction false} JoinedIncreases(links: seq<Link>, firsts: seq<nat>, n: nat, account: int)
    requires n <= |firsts| && forall j | 0 <= j < |firsts| :: firsts[j] < |links|
    ensures forall j, l | 0 <= j < l < |Joined(links, firsts, n, account)| ::
              Joined(links, firsts, n, account)[j] < Joined(links, firsts, n, account)[l]
  {
    if n != 0 {
      JoinedIncreases(links, firsts, n - 1, account);
    }
  }

  /** An account's groups are a subsequence of the distinct groups in first-occurrence order. */
  lemma GroupsAreSubsequence(links: seq<Link>, account: int) returns (idx: seq<nat>)
    ensures Ascending(idx) && forall j | 0 <= j < |idx| :: idx[j] < |Members(links)|
    ensures GroupsOf(links, account) == Pick(Members(links), idx)
  {
    var firsts := Firsts(GroupIds(links));
    JoinedIncreases(links, firsts, |firsts|, account);
    idx := Joined(links, firsts, |firsts|, account);
  }

  /** No two of the distinct groups have the same ID. */
  lemma MembersDistinct(links: seq<Link>, i: nat, j: nat)
    requires i < j < |Members(links)|
    ensures IdOf(Members(links)[i]) != IdOf(Members(links)[j])
  {
    var ids := GroupIds(links);
    FirstsDistinct(ids, i, j);
    assert ids[Firsts(ids)[i]] == IdOf(Members(links)[i]) && ids[Firsts(ids)[j]] == IdOf(Members(links)[j]);
  }

  /** No group is listed twice for an account. */
  lemma GroupsDistinct(links: seq<Link>, account: int, i: nat, j: nat)
    requires i < j < |GroupsOf(links, account)|
    ensures IdOf(GroupsOf(links, account)[i]) != IdOf(GroupsOf(links, account)[j])
  {
    var idx := GroupsAreSubsequence(links, account);
    MembersDistinct(links, idx[i], idx[j]);
  }

  /** Account a has group g exactly once if, and not at all unless, a join row (a, g) exists. */
  lemma GroupListedIffLinked(links: seq<Link>, account: int, group: int)
    ensures (exists i :: 0 <= i < |GroupsOf(links, account)| && IdOf(GroupsOf(links, account)[i]) == group) <==>
              Linked(links, account, group)
    ensures forall i, j | 0 <= i < j < |GroupsOf(links, account)| ::
              !(IdOf(GroupsOf(links, account)[i]) == group && IdOf(GroupsOf(links, account)[j]) == group)
  {
    var ids := GroupIds(links);
    var firsts := Firsts(ids);
    var idx := Joined(links, firsts, |firsts|, account);
    var groups := GroupsOf(links, account);
    if Linked(links, account, group) {
      var i :| 0 <= i < |links| && links[i].account == account && IdOf(links[i].group) == group;
      var p := FirstsCover(ids, i);
      assert ids[firsts[p]] == ids[i] == group;
      JoinedExact(links, firsts, |firsts|, account, p);
      assert p in idx;
      var j :| 0 <= j < |idx| && idx[j] == p;
      assert groups[j] == Members(links)[p] && IdOf(groups[j]) == group;
    }
    forall i | 0 <= i < |groups| && IdOf(groups[i]) == group ensures Linked(links, account, group) {
      assert idx[i] in idx;
      JoinedExact(links, firsts, |firsts|, account, idx[i]);
    }
    forall i, j | 0 <= i < j < |groups| ensures !(IdOf(groups[i]) == group && IdOf(groups[j]) == group) {
      GroupsDistinct(links, account, i, j);
    }
  }
}
