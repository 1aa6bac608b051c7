/** The hash joins: index the nodes, then hand each neighbour to the nodes it belongs to. */
module Loaders {
  import opened Schema
  import opened EagerSpec
  import opened Entities

  // ---------------------------------------------------------------- indexes

  /** nodeids lists, for each key among the first n, the nodes that carry it, in node order. */
  ghost predicate ForeignIndex(nodes: seq<Account>, keys: seq<Option<int>>, n: nat, nodeids: map<int, seq<Account>>)
    requires n <= |keys| == |nodes|
  {
    && nodeids.Keys == KeysTo(keys, n)
    && (forall k :: k in nodeids ==> nodeids[k] == Pick(nodes, HitsTo(keys, n, k)))
  }

  function Listed(nodeids: map<int, seq<Account>>, k: int): seq<Account> {
    if k in nodeids then nodeids[k] else []
  }

  lemma {:induction false} NoHits(keys: seq<Option<int>>, n: nat, k: int)
    requires n <= |keys| && k !in KeysTo(keys, n)
    ensures HitsTo(keys, n, k) == []
  {
    if n != 0 {
      NoHits(keys, n - 1, k);
    }
  }

  /** Appending node n to the list of its key keeps the index. */
  lemma ForeignStep(nodes: seq<Account>, keys: seq<Option<int>>, n: nat, nodeids: map<int, seq<Account>>, fk: int)
    requires n < |keys| == |nodes| && ForeignIndex(nodes, keys, n, nodeids) && keys[n] == Some(fk)
    ensures ForeignIndex(nodes, keys, n + 1, nodeids[fk := Listed(nodeids, fk) + [nodes[n]]])
  {
    if fk !in nodeids {
      NoHits(keys, n, fk);
    }
    var idx := HitsTo(keys, n, fk);
    assert HitsTo(keys, n + 1, fk) == idx + [n];
    assert Pick(nodes, idx + [n]) == Pick(nodes, idx) + [nodes[n]];
  }

  /** First half of loadProxy and loadParent: the distinct foreign keys and, per key, the nodes
      that carry it. */
  method IndexByForeignKey(nodes: seq<Account>, c: Column) returns (ids: seq<int>, nodeids: map<int, seq<Account>>)
    ensures ForeignIndex(nodes, Keys(NodeRows(nodes), c), |nodes|, nodeids)
    ensures forall k :: k in ids <==> k in nodeids
    ensures forall i, j | 0 <= i < j < |ids| :: ids[i] != ids[j]
  {
    ids, nodeids := [], map[];
    ghost var keys := Keys(NodeRows(nodes), c);
    for n := 0 to |nodes|
      invariant ForeignIndex(nodes, keys, n, nodeids)
      invariant forall k :: k in ids <==> k in nodeids
      invariant forall i, j | 0 <= i < j < |ids| :: ids[i] != ids[j]
    {
      var key := KeyOf(nodes[n].fields, c);
      if key.Some? {
        var fk := key.value;
        if fk !in nodeids {
          ids := ids + [fk];
        }
        ForeignStep(nodes, keys, n, nodeids, fk);
        nodeids := nodeids[fk := Listed(nodeids, fk) + [nodes[n]]];
      }
    }
  }

  /** nodeids keeps, for each ID among the first n nodes, the last node that has it. */
  ghost predicate IdIndex(nodes: seq<Account>, n: nat, nodeids: map<int, Account>)
    requires n <= |nodes|
  {
    var keys := IdKeys(NodeRows(nodes));
    && nodeids.Keys == KeysTo(keys, n)
    && (forall k :: k in nodeids ==> LastTo(keys, n, Some(k)) >= 0 && nodeids[k] == nodes[LastTo(keys, n, Some(k))])
  }

  /** First half of the O2M and M2M loaders. */
  method IndexById(nodes: seq<Account>) returns (nodeids: map<int, Account>)
    ensures IdIndex(nodes, |nodes|, nodeids)
  {
    nodeids := map[];
    for n := 0 to |nodes|
      invariant IdIndex(nodes, n, nodeids)
    {
      nodeids := nodeids[IdOf(nodes[n].fields) := nodes[n]];
    }
  }

  // ---------------------------------------------------------------- M2O

  /** Inner loop of loadParent. */
  method AssignParent(n: Account, targets: seq<Account>)
    modifies targets
    ensures forall a | a in targets :: a.edges == old(a.edges).(parent := n)
  {
    for j := 0 to |targets|
      invariant forall a | a in targets[j..] && a !in targets[..j] :: a.edges == old(a.edges)
      invariant forall a | a in targets[..j] :: a.edges == old(a.edges).(parent := n)
    {
      targets[j].edges := targets[j].edges.(parent := n);
    }
  }

  /** Inner loop of loadProxy. */
  method AssignProxy(n: Leaf, targets: seq<Account>)
    modifies targets
    ensures forall a | a in targets :: a.edges == old(a.edges).(proxy := n)
  {
    for j := 0 to |targets|
      invariant forall a | a in targets[j..] && a !in targets[..j] :: a.edges == old(a.edges)
      invariant forall a | a in targets[..j] :: a.edges == old(a.edges).(proxy := n)
    {
      targets[j].edges := targets[j].edges.(proxy := n);
    }
  }

  /** What a M2O slot of node a holds after the first n neighbours were handed out. */
  ghost function Latest<T>(nodeids: map<int, seq<Account>>, neighbors: seq<T>, ids: seq<Option<int>>, n: nat,
                           a: Account, init: T): T
    requires n <= |neighbors| == |ids|
  {
    if n == 0 then init
    else if ids[n - 1].Some? && a in Listed(nodeids, ids[n - 1].value) then neighbors[n - 1]
    else Latest(nodeids, neighbors, ids, n - 1, a, init)
  }

  /** Second half of loadParent: each neighbour goes to every node listed under its ID, a later
      one replacing an earlier one; a neighbour under whose ID no node is listed is an error. */
  method AssignParents(nodes: seq<Account>, nodeids: map<int, seq<Account>>, neighbors: seq<Account>)
    returns (ok: bool)
    requires forall k | k in nodeids :: forall a | a in nodeids[k] :: a in nodes
    modifies nodes
    ensures ok <==> Known(IdKeys(NodeRows(neighbors)), nodeids.Keys)
    ensures ok ==> forall a | a in nodes ::
              a.edges == old(a.edges).(parent :=
                Latest<Account?>(nodeids, neighbors, IdKeys(NodeRows(neighbors)), |neighbors|, a, old(a.edges.parent)))
  {
    ghost var ids := IdKeys(NodeRows(neighbors));
    for k := 0 to |neighbors|
      invariant KnownTo(ids, k, nodeids.Keys)
      invariant forall a | a in nodes ::
                  a.edges == old(a.edges).(parent := Latest<Account?>(nodeids, neighbors, ids, k, a,
                                                                      old(a.edges.parent)))
    {
      var n := neighbors[k];
      if IdOf(n.fields) !in nodeids {
        KnownExact(ids, |ids|, nodeids.Keys);
        return false;
      }
      var targets := nodeids[IdOf(n.fields)];
      assert forall j | 0 <= j < |targets| :: targets[j] in nodes;
      AssignParent(n, targets);
    }
    ok := true;
  }

  /** Second half of loadProxy. */
  method AssignProxies(nodes: seq<Account>, nodeids: map<int, seq<Account>>, neighbors: seq<Leaf>)
    returns (ok: bool)
    requires forall k | k in nodeids :: forall a | a in nodeids[k] :: a in nodes
    modifies nodes
    ensures ok <==> Known(IdKeys(LeafRows(neighbors)), nodeids.Keys)
    ensures ok ==> forall a | a in nodes ::
              a.edges == old(a.edges).(proxy :=
                Latest<Leaf?>(nodeids, neighbors, IdKeys(LeafRows(neighbors)), |neighbors|, a, old(a.edges.proxy)))
  {
    ghost var ids := IdKeys(LeafRows(neighbors));
    for k := 0 to |neighbors|
      invariant KnownTo(ids, k, nodeids.Keys)
      invariant forall a | a in nodes ::
                  a.edges == old(a.edges).(proxy := Latest<Leaf?>(nodeids, neighbors, ids, k, a, old(a.edges.proxy)))
    {
      var n := neighbors[k];
      if IdOf(n.fields) !in nodeids {
        KnownExact(ids, |ids|, nodeids.Keys);
        return false;
      }
      var targets := nodeids[IdOf(n.fields)];
      assert forall j | 0 <= j < |targets| :: targets[j] in nodes;
      AssignProxy(n, targets);
    }
    ok := true;
  }

  // ---------------------------------------------------------------- O2M

  method InitChildren(nodes: seq<Account>)
    modifies nodes
    ensures forall a | a in nodes :: a.edges == old(a.edges).(children := Items([]))
  {
    for k := 0 to |nodes|
      invariant forall a | a in nodes[..k] :: a.edges == old(a.edges).(children := Items([]))
      invariant forall a | a in nodes[k..] && a !in nodes[..k] :: a.edges == old(a.edges)
    {
      nodes[k].edges := nodes[k].edges.(children := Items([]));
    }
  }

  method InitLeaves(nodes: seq<Account>, slot: Slot)
    modifies nodes
    ensures forall a | a in nodes :: a.edges == Set(old(a.edges), slot, Items([]))
  {
    for k := 0 to |nodes|
      invariant forall a | a in nodes[..k] :: a.edges == Set(old(a.edges), slot, Items([]))
      invariant forall a | a in nodes[k..] && a !in nodes[..k] :: a.edges == old(a.edges)
    {
      nodes[k].edges := Set(nodes[k].edges, slot, Items([]));
    }
  }

  /** The neighbours, among the first n, whose key leads to node a. */
  ghost function Dealt<T>(nodeids: map<int, Account>, neighbors: seq<T>, keys: seq<Option<int>>, n: nat,
                          a: Account): seq<T>
    requires n <= |neighbors| == |keys|
  {
    if n == 0 then []
    else
      var before := Dealt(nodeids, neighbors, keys, n - 1, a);
      if keys[n - 1].Some? && keys[n - 1].value in nodeids &&
          nodeids[keys[n - 1].value] == a then before + [neighbors[n - 1]]
      else before
  }

  /** Handing neighbour n to the node kept for its key lengthens that node's list and no other. */
  lemma DealtStep<T>(nodeids: map<int, Account>, neighbors: seq<T>, keys: seq<Option<int>>, n: nat, k: int)
    requires n < |neighbors| == |keys| && keys[n] == Some(k) && k in nodeids
    ensures forall a :: Dealt(nodeids, neighbors, keys, n + 1, a)
                     == Dealt(nodeids, neighbors, keys, n, a) + if a == nodeids[k] then [neighbors[n]] else []
  {
  }

  /** Second half of loadChildren. */
  method AssignChildren(nodes: seq<Account>, nodeids: map<int, Account>, neighbors: seq<Account>)
    returns (ok: bool)
    requires forall k | k in nodeids :: nodeids[k] in nodes
    requires forall a | a in nodes :: a.edges.children == Items([])
    modifies nodes
    ensures ok <==> Known(Keys(NodeRows(neighbors), ParentAccountID), nodeids.Keys)
    ensures ok ==> forall a | a in nodes ::
              a.edges == old(a.edges).(children := Items(
                Dealt(nodeids, neighbors, Keys(NodeRows(neighbors), ParentAccountID), |neighbors|, a)))
  {
    ghost var keys := Keys(NodeRows(neighbors), ParentAccountID);
    for k := 0 to |neighbors|
      invariant KnownTo(keys, k, nodeids.Keys)
      invariant forall a | a in nodes ::
                  a.edges == old(a.edges).(children := Items(Dealt(nodeids, neighbors, keys, k, a)))
    {
      var n := neighbors[k];
      var fk := KeyOf(n.fields, ParentAccountID);
      if fk.None? || fk.value !in nodeids {
        KnownExact(keys, |keys|, nodeids.Keys);
        return false;
      }
      var node := nodeids[fk.value];
      DealtStep(nodeids, neighbors, keys, k, fk.value);
      node.edges := node.edges.(children := Append(node.edges.children, n));
    }
    ok := true;
  }

  /** Second half of loadUsageLogs and loadAccountGroups. */
  method AssignLeaves(nodes: seq<Account>, nodeids: map<int, Account>, neighbors: seq<Leaf>, slot: Slot)
    returns (ok: bool)
    requires forall k | k in nodeids :: nodeids[k] in nodes
    requires forall a | a in nodes :: Get(a.edges, slot) == Items([])
    modifies nodes
    ensures ok <==> Known(Fks(LeafRows(neighbors), AccountID), nodeids.Keys)
    ensures ok ==> forall a | a in nodes ::
              a.edges == Set(old(a.edges), slot,
                             Items(Dealt(nodeids, neighbors, Fks(LeafRows(neighbors), AccountID), |neighbors|, a)))
  {
    ghost var keys := Fks(LeafRows(neighbors), AccountID);
    for k := 0 to |neighbors|
      invariant KnownTo(keys, k, nodeids.Keys)
      invariant forall a | a in nodes ::
                  a.edges == Set(old(a.edges), slot, Items(Dealt(nodeids, neighbors, keys, k, a)))
    {
      var n := neighbors[k];
      var fk := if KeyOf(n.fields, AccountID).Some? then KeyOf(n.fields, AccountID).value else 0;
      if fk !in nodeids {
        KnownExact(keys, |keys|, nodeids.Keys);
        return false;
      }
      var node := nodeids[fk];
      DealtStep(nodeids, neighbors, keys, k, fk);
      node.edges := Set(node.edges, slot, Append(Get(node.edges, slot), n));
    }
    ok := true;
  }

  // ---------------------------------------------------------------- M2M

  /** The nodes that the first n join rows connect with group g. */
  ghost function Takers(byID: map<int, Account>, links: seq<Link>, n: nat, g: int): set<Account>
    requires n <= |links| && forall j | 0 <= j < n :: links[j].account in byID
  {
    if n == 0 then {}
    else if IdOf(links[n - 1].group) == g then Takers(byID, links, n - 1, g) + {byID[links[n - 1].account]}
    else Takers(byID, links, n - 1, g)
  }

  ghost predicate Collected(byID: map<int, Account>, links: seq<Link>, n: nat, nids: map<int, set<Account>>)
    requires n <= |links| && forall j | 0 <= j < n :: links[j].account in byID
  {
    && (forall g :: g in nids <==> Occurs(GroupIds(links), n, g))
    && (forall g :: g in nids ==> nids[g] == Takers(byID, links, n, g))
  }

  lemma {:induction false} NoTakers(byID: map<int, Account>, links: seq<Link>, n: nat, g: int)
    requires n <= |links| && forall j | 0 <= j < n :: links[j].account in byID
    requires !Occurs(GroupIds(links), n, g)
    ensures Takers(byID, links, n, g) == {}
  {
    if n != 0 {
      assert GroupIds(links)[n - 1] != g;
      NoTakers(byID, links, n - 1, g);
    }
  }

  /** One more join row adds its account to the set of its group. */
  lemma CollectStep(byID: map<int, Account>, links: seq<Link>, n: nat, nids: map<int, set<Account>>)
    requires n < |links| && forall j | 0 <= j < |links| :: links[j].account in byID
    requires Collected(byID, links, n, nids)
    ensures Collected(byID, links, n + 1, Collect(nids, IdOf(links[n].group), byID[links[n].account]))
    ensures IdOf(links[n].group) in nids <==> Occurs(GroupIds(links), n, GroupIds(links)[n])
  {
    var g := IdOf(links[n].group);
    assert GroupIds(links)[n] == g;
    if g !in nids {
      NoTakers(byID, links, n, g);
    }
    forall x ensures Occurs(GroupIds(links), n + 1, x) <==> Occurs(GroupIds(links), n, x) || x == g {
    }
  }

  function Collect(nids: map<int, set<Account>>, g: int, a: Account): map<int, set<Account>> {
    nids[g := (if g in nids then nids[g] else {}) + {a}]
  }

  /** The row assigner that loadGroups installs: it reads the account and the group ID of a row by
      position; a group row is kept at its first occurrence, and every row adds its account to the set
      of the group. */
  method CollectLinks(byID: map<int, Account>, columns: seq<Column>, table: seq<seq<Cell>>, ghost links: seq<Link>)
    returns (neighbors: seq<Leaf>, nids: map<int, set<Account>>)
    requires |columns| > 0 && Holding(table, links, columns)
    requires forall j | 0 <= j < |links| :: links[j].account in byID
    ensures LeafRows(neighbors) == Members(links)
    ensures Collected(byID, links, |links|, nids)
  {
    neighbors, nids := [], map[];
    for k := 0 to |table|
      invariant LeafRows(neighbors) == MembersTo(links, k)
      invariant Collected(byID, links, k, nids)
    {
      var outValue, inValue := Int64(table[k][0]), Int64(table[k][1]);
      CollectStep(byID, links, k, nids);
      if inValue !in nids {
        var group := new Leaf(FromValues(columns, table[k][1..]));
        neighbors := neighbors + [group];
      }
      nids := Collect(nids, inValue, byID[outValue]);
    }
  }

  /** Inner loop of loadGroups; the set is visited in no particular order. */
  method AssignGroup(n: Leaf, targets: set<Account>)
    modifies targets
    ensures forall a | a in targets :: a.edges == old(a.edges).(groups := Append(old(a.edges.groups), n))
  {
    var rest := targets;
    while rest != {}
      invariant rest <= targets
      invariant forall a | a in rest :: a.edges == old(a.edges)
      invariant forall a | a in targets - rest :: a.edges == old(a.edges).(groups := Append(old(a.edges.groups), n))
    {
      var kn :| kn in rest;
      kn.edges := kn.edges.(groups := Append(kn.edges.groups, n));
      rest := rest - {kn};
    }
  }

  /** The neighbours, among the first n, whose account set contains a. */
  ghost function Given(nids: map<int, set<Account>>, neighbors: seq<Leaf>, n: nat, a: Account): seq<Leaf>
    requires n <= |neighbors|
  {
    if n == 0 then []
    else
      var before := Given(nids, neighbors, n - 1, a);
      var g := IdOf(neighbors[n - 1].fields);
      if g in nids && a in nids[g] then before + [neighbors[n - 1]] else before
  }

  /** Second half of loadGroups. */
  method AssignGroups(nodes: seq<Account>, nids: map<int, set<Account>>, neighbors: seq<Leaf>) returns (ok: bool)
    requires forall g | g in nids :: forall a | a in nids[g] :: a in nodes
    requires forall a | a in nodes :: a.edges.groups == Items([])
    modifies nodes
    ensures ok <==> Known(IdKeys(LeafRows(neighbors)), nids.Keys)
    ensures ok ==>
              forall a | a in nodes :: a.edges == old(a.edges).(groups := Items(Given(nids, neighbors, |neighbors|, a)))
  {
    for k := 0 to |neighbors|
      invariant KnownTo(IdKeys(LeafRows(neighbors)), k, nids.Keys)
      invariant forall a | a in nodes :: a.edges == old(a.edges).(groups := Items(Given(nids, neighbors, k, a)))
    {
      var n := neighbors[k];
      if IdOf(n.fields) !in nids {
        KnownExact(IdKeys(LeafRows(neighbors)), |neighbors|, nids.Keys);
        return false;
      }
      AssignGroup(n, nids[IdOf(n.fields)]);
    }
    ok := true;
  }

  // ---------------------------------------------------------------- hash join and nested loop agree

  /** A node is listed under a key exactly when that is its foreign key. */
  lemma ListedExact(nodes: seq<Account>, c: Column, nodeids: map<int, seq<Account>>, k: int, a: Account)
    requires ForeignIndex(nodes, Keys(NodeRows(nodes), c), |nodes|, nodeids) && a in nodes
    ensures a in Listed(nodeids, k) <==> KeyOf(a.fields, c) == Some(k)
  {
    var keys := Keys(NodeRows(nodes), c);
    var idx := HitsTo(keys, |nodes|, k);
    HitsExact(keys, |nodes|, k);
    KeysExact(keys, |nodes|);
    if KeyOf(a.fields, c) == Some(k) {
      var i :| 0 <= i < |nodes| && nodes[i] == a;
      assert keys[i] == Some(k) && i in idx;
      var j :| 0 <= j < |idx| && idx[j] == i;
      assert Pick(nodes, idx)[j] == a;
    }
  }

  /** The M2O hash join gives a node the last neighbour whose ID is the node's foreign key. */
  lemma {:induction false} LatestIsLast<T>(nodes: seq<Account>, c: Column, nodeids: map<int, seq<Account>>,
                                           neighbors: seq<T>, ids: seq<Option<int>>, n: nat, a: Account, init: T)
    requires ForeignIndex(nodes, Keys(NodeRows(nodes), c), |nodes|, nodeids) && a in nodes
    requires n <= |neighbors| == |ids| && forall j | 0 <= j < n :: ids[j].Some?
    ensures var i := LastTo(ids, n, KeyOf(a.fields, c));
            Latest(nodeids, neighbors, ids, n, a, init) == if i == -1 then init else neighbors[i]
  {
    if n != 0 {
      ListedExact(nodes, c, nodeids, ids[n - 1].value, a);
      LatestIsLast(nodes, c, nodeids, neighbors, ids, n - 1, a, init);
    }
  }

  /** The node kept for key k is node i exactly when i is the last node with that ID. */
  lemma KeptExact(nodes: seq<Account>, nodeids: map<int, Account>, i: nat, k: int)
    requires Distinct(nodes) && IdIndex(nodes, |nodes|, nodeids) && i < |nodes|
    ensures k in nodeids && nodeids[k] == nodes[i] <==> IdOf(nodes[i].fields) == k && Owns(nodes, i)
  {
    var keys := IdKeys(NodeRows(nodes));
    LastExact(keys, |nodes|, Some(k));
    KeysExact(keys, |nodes|);
    assert keys[i] == Some(IdOf(nodes[i].fields));
  }

  lemma {:induction false} DealtIsHits<T>(nodeids: map<int, Account>, neighbors: seq<T>, keys: seq<Option<int>>,
                                          n: nat, a: Account, k: int)
    requires n <= |neighbors| == |keys|
    requires forall j | 0 <= j < n ::
               (keys[j].Some? && keys[j].value in nodeids && nodeids[keys[j].value] == a) <==> keys[j] == Some(k)
    ensures Dealt(nodeids, neighbors, keys, n, a) == Pick(neighbors, HitsTo(keys, n, k))
  {
    if n != 0 {
      DealtIsHits(nodeids, neighbors, keys, n - 1, a, k);
      PickSnoc(neighbors, HitsTo(keys, n - 1, k), n - 1);
    }
  }

  /** The O2M hash join gives the node kept for an ID the neighbours with that foreign key. */
  lemma DealtIsOwned<T>(nodes: seq<Account>, nodeids: map<int, Account>, a: Account, neighbors: seq<T>,
                        keys: seq<Option<int>>)
    requires Distinct(nodes) && IdIndex(nodes, |nodes|, nodeids) && |neighbors| == |keys|
    requires a in nodes && forall i: nat | i < |nodes| :: Owns(nodes, i)
    ensures Dealt(nodeids, neighbors, keys, |neighbors|, a) == Pick(neighbors, Hits(keys, IdOf(a.fields)))
  {
    var i: nat :| i < |nodes| && nodes[i] == a;
    assert Owns(nodes, i);
    forall j | 0 <= j < |keys| && keys[j].Some? {
      KeptExact(nodes, nodeids, i, keys[j].value);
    }
    DealtIsHits(nodeids, neighbors, keys, |neighbors|, a, IdOf(a.fields));
  }

  lemma {:induction false} TakersExact(byID: map<int, Account>, links: seq<Link>, n: nat, g: int, a: Account)
    requires n <= |links| && forall j | 0 <= j < n :: links[j].account in byID
    ensures a in Takers(byID, links, n, g)
       <==> exists j :: 0 <= j < n && IdOf(links[j].group) == g && byID[links[j].account] == a
  {
    if n != 0 {
      TakersExact(byID, links, n - 1, g, a);
    }
  }

  /** A group's set contains the node kept for an ID exactly when a join row links the two. */
  lemma TakerExact(nodes: seq<Account>, byID: map<int, Account>, links: seq<Link>, g: int, i: nat)
    requires Distinct(nodes) && IdIndex(nodes, |nodes|, byID) && i < |nodes|
    requires forall j | 0 <= j < |links| :: links[j].account in byID
    ensures nodes[i] in Takers(byID, links, |links|, g) <==> Owns(nodes, i) && Linked(links, IdOf(nodes[i].fields), g)
  {
    TakersExact(byID, links, |links|, g, nodes[i]);
    forall j | 0 <= j < |links| {
      KeptExact(nodes, byID, i, links[j].account);
    }
  }

  /** The positions below n whose flag is set. */
  ghost function Chosen(flags: seq<bool>, n: nat): (idx: seq<nat>)
    requires n <= |flags|
    ensures forall j | 0 <= j < |idx| :: idx[j] < n
  {
    if n == 0 then []
    else
      var before := Chosen(flags, n - 1);
      if flags[n - 1] then before + [n - 1] else before
  }

  lemma {:induction false} GivenIsChosen(nids: map<int, set<Account>>, neighbors: seq<Leaf>, n: nat, a: Account,
                                         flags: seq<bool>)
    requires n <= |neighbors| == |flags|
    requires forall j | 0 <= j < n ::
               flags[j] <==> IdOf(neighbors[j].fields) in nids && a in nids[IdOf(neighbors[j].fields)]
    ensures Given(nids, neighbors, n, a) == Pick(neighbors, Chosen(flags, n))
  {
    if n != 0 {
      GivenIsChosen(nids, neighbors, n - 1, a, flags);
      var before := Chosen(flags, n - 1);
      PickSnoc(neighbors, before, n - 1);
      assert Chosen(flags, n) == if flags[n - 1] then before + [n - 1] else before;
    }
  }

  lemma {:induction false} JoinedIsChosen(links: seq<Link>, firsts: seq<nat>, n: nat, account: int, flags: seq<bool>)
    requires n <= |firsts| == |flags| && forall j | 0 <= j < |firsts| :: firsts[j] < |links|
    requires forall j | 0 <= j < n :: flags[j] <==> Linked(links, account, IdOf(links[firsts[j]].group))
    ensures Joined(links, firsts, n, account) == Chosen(flags, n)
  {
    if n != 0 {
      JoinedIsChosen(links, firsts, n - 1, account, flags);
    }
  }

  /** The M2M hash join gives the node kept for an ID the groups linked to that ID, in
      first-occurrence order. */
  lemma GivenIsJoined(nodes: seq<Account>, byID: map<int, Account>, links: seq<Link>,
                      nids: map<int, set<Account>>, neighbors: seq<Leaf>, i: nat)
    requires Distinct(nodes) && IdIndex(nodes, |nodes|, byID) && i < |nodes| && Owns(nodes, i)
    requires forall j | 0 <= j < |links| :: links[j].account in byID
    requires LeafRows(neighbors) == Members(links) && Collected(byID, links, |links|, nids)
    ensures Given(nids, neighbors, |neighbors|, nodes[i])
         == Pick(neighbors, Joined(links, Firsts(GroupIds(links)), |Firsts(GroupIds(links))|, IdOf(nodes[i].fields)))
  {
    var firsts, id := Firsts(GroupIds(links)), IdOf(nodes[i].fields);
    var flags := seq(|firsts|, j requires 0 <= j < |firsts| => Linked(links, id, IdOf(links[firsts[j]].group)));
    forall j | 0 <= j < |neighbors|
      ensures flags[j] <==> IdOf(neighbors[j].fields) in nids && nodes[i] in nids[IdOf(neighbors[j].fields)]
    {
      var f, g := firsts[j], IdOf(neighbors[j].fields);
      assert LeafRows(neighbors)[j] == links[f].group;
      assert GroupIds(links)[f] == g;
      TakerExact(nodes, byID, links, g, i);
    }
    GivenIsChosen(nids, neighbors, |neighbors|, nodes[i], flags);
    JoinedIsChosen(links, firsts, |firsts|, id, flags);
  }
}
