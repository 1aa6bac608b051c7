/** The joined groups query: its order, what of it belongs to one account, and when the groups of an
    account in a batch are those of its own query. */
module Links {
  import opened Schema
  import opened Store
  import opened QueryFacts
  import opened EagerSpec
  import opened ManyToMany
  import opened Windows
  import opened Bags
  import opened PerNodeSpec
  import opened Batches

  // ---------------------------------------------------------------- sorting join rows

  ghost predicate SortedLinks(o: seq<OrderTerm>, links: seq<Link>) {
    forall i, j | 0 <= i < j < |links| :: Leq(o, links[i].group, links[j].group)
  }

  lemma {:induction false} InsertLinkSorted(o: seq<OrderTerm>, x: Link, links: seq<Link>)
    requires SortedLinks(o, links)
    ensures SortedLinks(o, InsertLink(o, x, links))
  {
    if links != [] {
      if Leq(o, x.group, links[0].group) {
        forall j | 0 <= j < |links| ensures Leq(o, x.group, links[j].group) {
          if j > 0 { LeqTransitive(o, x.group, links[0].group, links[j].group); }
        }
      } else {
        InsertLinkSorted(o, x, links[1..]);
        var rest := InsertLink(o, x, links[1..]);
        forall j | 0 <= j < |rest| ensures Leq(o, links[0].group, rest[j].group) {
          assert rest[j] in multiset(rest);
          LeqTotal(o, x.group, links[0].group);
        }
      }
    }
  }

  lemma {:induction false} SortLinksSorted(o: seq<OrderTerm>, links: seq<Link>)
    ensures SortedLinks(o, SortLinks(o, links))
  {
    if links != [] {
      SortLinksSorted(o, links[1..]);
      InsertLinkSorted(o, links[0], SortLinks(o, links[1..]));
    }
  }

  lemma SortLinkMembers(o: seq<OrderTerm>, links: seq<Link>, l: Link)
    ensures l in SortLinks(o, links) <==> l in links
  {
    assert l in SortLinks(o, links) <==> l in multiset(SortLinks(o, links));
    assert l in links <==> l in multiset(links);
  }

  // ---------------------------------------------------------------- the join rows of one account

  function Mine(links: seq<Link>, a: int): (out: seq<Link>)
    ensures forall i | 0 <= i < |out| :: out[i] in links && out[i].account == a
  {
    if links == [] then []
    else if links[0].account == a then [links[0]] + Mine(links[1..], a)
    else Mine(links[1..], a)
  }

  lemma MineCons(x: Link, links: seq<Link>, a: int)
    ensures Mine([x] + links, a) == if x.account == a then [x] + Mine(links, a) else Mine(links, a)
  {
    assert ([x] + links)[1..] == links;
  }

  lemma {:induction false} MineSnoc(links: seq<Link>, x: Link, a: int)
    ensures Mine(links + [x], a) == if x.account == a then Mine(links, a) + [x] else Mine(links, a)
  {
    if links == [] {
      assert links + [x] == [x] + [];
      MineCons(x, [], a);
    } else {
      assert (links + [x])[1..] == links[1..] + [x];
      MineSnoc(links[1..], x, a);
    }
  }

  lemma {:induction false} MineIsPick(links: seq<Link>, n: nat, a: int)
    requires n <= |links|
    ensures Mine(links[..n], a) == Pick(links, HitsTo(Accounts(links), n, a))
  {
    if n > 0 {
      MineIsPick(links, n - 1, a);
      MinePickStep(links, n - 1, a, HitsTo(Accounts(links), n - 1, a));
    }
  }

  lemma MinePickStep(links: seq<Link>, n: nat, a: int, idx: seq<nat>)
    requires n < |links| && (forall j | 0 <= j < |idx| :: idx[j] < |links|) && Mine(links[..n], a) == Pick(links, idx)
    ensures Mine(links[..n + 1], a) == if links[n].account == a then Pick(links, idx + [n]) else Pick(links, idx)
  {
    assert links[..n + 1] == links[..n] + [links[n]];
    MineSnoc(links[..n], links[n], a);
    PickSnoc(links, idx, n);
  }

  lemma InsertLinkFront(o: seq<OrderTerm>, x: Link, links: seq<Link>)
    requires forall l | l in links :: Leq(o, x.group, l.group)
    ensures InsertLink(o, x, links) == [x] + links
  {
  }

  lemma MineAbove(o: seq<OrderTerm>, x: Link, links: seq<Link>, a: int, l: Link)
    requires SortedLinks(o, links) && links != [] && Leq(o, x.group, links[0].group) && l in Mine(links, a)
    ensures Leq(o, x.group, l.group)
  {
    var j :| 0 <= j < |links| && links[j] == l;
    if j > 0 { LeqTransitive(o, x.group, links[0].group, l.group); }
  }

  lemma {:induction false} MineInsert(o: seq<OrderTerm>, x: Link, links: seq<Link>, a: int)
    requires SortedLinks(o, links)
    ensures Mine(InsertLink(o, x, links), a) == if x.account == a then InsertLink(o, x,
              Mine(links, a)) else Mine(links, a)
    decreases links, 1
  {
    if links == [] || Leq(o, x.group, links[0].group) {
      MineCons(x, links, a);
      forall l | l in Mine(links, a) ensures Leq(o, x.group, l.group) {
        MineAbove(o, x, links, a, l);
      }
      InsertLinkFront(o, x, Mine(links, a));
    } else {
      MineInsertBehind(o, x, links, a);
    }
  }

  lemma MineInsertBehind(o: seq<OrderTerm>, x: Link, links: seq<Link>, a: int)
    requires SortedLinks(o, links) && links != [] && !Leq(o, x.group, links[0].group)
    ensures Mine(InsertLink(o, x, links), a) == if x.account == a then InsertLink(o, x,
              Mine(links, a)) else Mine(links, a)
    decreases links, 0
  {
    var rest := links[1..];
    MineInsert(o, x, rest, a);
    MineCons(links[0], InsertLink(o, x, rest), a);
    if links[0].account == a {
      assert Mine(links, a)[1..] == Mine(rest, a);
    }
  }

  /** The stable sort commutes with keeping one account's join rows. */
  lemma {:induction false} MineSort(o: seq<OrderTerm>, links: seq<Link>, a: int)
    ensures Mine(SortLinks(o, links), a) == SortLinks(o, Mine(links, a))
  {
    if links != [] {
      var rest := links[1..];
      MineSort(o, rest, a);
      SortLinksSorted(o, rest);
      MineInsert(o, links[0], SortLinks(o, rest), a);
      if links[0].account == a {
        assert Mine(links, a)[1..] == Mine(rest, a);
      }
    }
  }

  /** The joined row that the first row of account_groups gives, if any. */
  function FirstLink(joins: seq<Row>, groups: seq<Row>, ids: set<int>, ps: seq<Pred>): Option<Link>
    requires joins != []
  {
    var a, g := KeyOf(joins[0], AccountID), GroupRow(groups, KeyOf(joins[0], GroupID));
    if a.Some? && a.value in ids && g.Some? && HoldsAll(ps, g.value) then Some(Link(a.value, g.value)) else None
  }

  lemma JoinCons(joins: seq<Row>, groups: seq<Row>, ids: set<int>, ps: seq<Pred>)
    requires joins != []
    ensures var l, rest := FirstLink(joins, groups, ids, ps), JoinRows(joins[1..], groups, ids, ps);
            JoinRows(joins, groups, ids, ps) == if l.Some? then [l.value] + rest else rest
  {
  }

  lemma {:induction false} MineJoin(joins: seq<Row>, groups: seq<Row>, ids: set<int>, ps: seq<Pred>, a: int)
    requires a in ids
    ensures JoinRows(joins, groups, {a}, ps) == Mine(JoinRows(joins, groups, ids, ps), a)
  {
    if joins != [] {
      MineJoin(joins[1..], groups, ids, ps, a);
      JoinCons(joins, groups, {a}, ps);
      JoinCons(joins, groups, ids, ps);
      var l := FirstLink(joins, groups, ids, ps);
      if l.Some? {
        MineCons(l.value, JoinRows(joins[1..], groups, ids, ps), a);
      }
    }
  }

  /** The joined rows of a batch without its window. */
  function AllLinks(db: Store, q: Core, ids: set<int>): seq<Link> {
    LinkRows(db, Traverse(Unlimited(q)), ids)
  }

  lemma AllLinksIs(db: Store, q: Core, ids: set<int>)
    ensures AllLinks(db, q, ids) ==
              SortLinks(q.order, JoinRows(db.accountGroups.rows, db.groups.rows, ids, Traverse(q).predicates))
    ensures LinkRows(db, Traverse(q), ids) == Window(AllLinks(db, q, ids), q.limit, q.offset)
  {
  }

  /** One account's own joined query is the whole batch cut down to the account, then cut by the
      window. */
  lemma OwnLinksAre(db: Store, q: Core, ids: set<int>, a: int)
    requires a in ids
    ensures LinkRows(db, Traverse(q), {a}) ==
              Window(Pick(AllLinks(db, q, ids), Hits(LinkOwners(db, q, ids), a)), q.limit, q.offset)
  {
    AllLinksIs(db, q, ids);
    AllLinksIs(db, q, {a});
    OwnSorted(q.order, db.accountGroups.rows, db.groups.rows, ids, Traverse(q).predicates, a);
  }

  lemma OwnSorted(o: seq<OrderTerm>, joins: seq<Row>, groups: seq<Row>, ids: set<int>, ps: seq<Pred>, a: int)
    requires a in ids
    ensures var all := SortLinks(o, JoinRows(joins, groups, ids, ps));
            SortLinks(o, JoinRows(joins, groups, {a}, ps)) == Pick(all, Hits(Accounts(all), a))
  {
    var all := SortLinks(o, JoinRows(joins, groups, ids, ps));
    MineJoin(joins, groups, ids, ps, a);
    MineSort(o, JoinRows(joins, groups, ids, ps), a);
    MineIsPick(all, |all|, a);
    assert all[..|all|] == all;
  }

  lemma LinkOwnersKnown(db: Store, q: Core, ids: set<int>)
    ensures Keyed(LinkOwners(db, q, ids)) && Known(LinkOwners(db, q, ids), ids)
  {
    var joined := JoinRows(db.accountGroups.rows, db.groups.rows, ids, Traverse(q).predicates);
    var all := AllLinks(db, q, ids);
    AllLinksIs(db, q, ids);
    forall i | 0 <= i < |all| ensures all[i].account in ids {
      assert all[i] in all;
      SortLinkMembers(q.order, joined, all[i]);
    }
    KnownExact(LinkOwners(db, q, ids), |all|, ids);
  }

  // ---------------------------------------------------------------- no join row twice

  /** In a joined result the group row is determined by its ID. */
  lemma {:induction false} JoinGroup(joins: seq<Row>, groups: seq<Row>, accounts: set<int>, ps: seq<Pred>, l: Link)
    requires l in JoinRows(joins, groups, accounts, ps)
    ensures GroupRow(groups, Some(IdOf(l.group))) == Some(l.group) && KeyOf(l.group, ID).Some?
  {
    var g := KeyOf(joins[0], GroupID);
    if GroupRow(groups, g) == Some(l.group) {
      LastExact(Keys(groups, ID), |groups|, g);
    } else {
      JoinGroup(joins[1..], groups, accounts, ps, l);
    }
  }

  /** A joined row comes from a row of account_groups with its keys. */
  lemma {:induction false} JoinFrom(joins: seq<Row>, groups: seq<Row>, ids: set<int>, ps: seq<Pred>, l: Link)
    requires l in JoinRows(joins, groups, ids, ps)
    ensures exists i ::
              0 <= i < |joins| && KeyOf(joins[i], AccountID) == Some(l.account) && KeyOf(joins[i],
                  GroupID) == Some(IdOf(l.group))
  {
    var a, g := KeyOf(joins[0], AccountID), KeyOf(joins[0], GroupID);
    if a == Some(l.account) && GroupRow(groups, g) == Some(l.group) {
      LastExact(Keys(groups, ID), |groups|, g);
      assert KeyOf(joins[0], GroupID) == Some(IdOf(l.group));
    } else {
      JoinFrom(joins[1..], groups, ids, ps, l);
      var i :| 0 <= i < |joins[1..]| && KeyOf(joins[1..][i], AccountID) == Some(l.account) && KeyOf(joins[1..][i],
          GroupID) == Some(IdOf(l.group));
      assert joins[i + 1] == joins[1..][i];
    }
  }

  lemma {:induction false} JoinNoRepeats(joins: seq<Row>, groups: seq<Row>, ids: set<int>, ps: seq<Pred>)
    requires PairsDistinct(joins)
    ensures NoRepeats(JoinRows(joins, groups, ids, ps))
  {
    if joins != [] {
      var rest := JoinRows(joins[1..], groups, ids, ps);
      JoinNoRepeats(joins[1..], groups, ids, ps);
      JoinCons(joins, groups, ids, ps);
      var l := FirstLink(joins, groups, ids, ps);
      if l.Some? {
        LastExact(Keys(groups, ID), |groups|, KeyOf(joins[0], GroupID));
        forall i | 0 <= i < |rest| ensures rest[i] != l.value {
          JoinFrom(joins[1..], groups, ids, ps, rest[i]);
        }
      }
    }
  }

  lemma AllLinksNoRepeats(db: Store, q: Core, ids: set<int>)
    requires PairsDistinct(db.accountGroups.rows)
    ensures NoRepeats(AllLinks(db, q, ids))
  {
    var joined := JoinRows(db.accountGroups.rows, db.groups.rows, ids, Traverse(q).predicates);
    AllLinksIs(db, q, ids);
    JoinNoRepeats(db.accountGroups.rows, db.groups.rows, ids, Traverse(q).predicates);
    var all := AllLinks(db, q, ids);
    forall i, j | 0 <= i < j < |all| ensures all[i] != all[j] {
      var a, b := PlacesInWhole(all, joined, i, j);
    }
  }

  // ---------------------------------------------------------------- groups as sets

  /** The links of one batch: equal group IDs mean equal (scanned) group rows. */
  ghost predicate Functional(links: seq<Link>) {
    forall i, j | 0 <= i < |links| && 0 <= j < |links| && IdOf(links[i].group) == IdOf(links[j].group) ::
        links[i].group == links[j].group
  }

  lemma LinkFacts(db: Store, core: Core, ids: set<int>, l: Link)
    requires l in LinkRows(db, core, ids)
    ensures GroupRow(db.groups.rows, Some(IdOf(l.group))) == Some(l.group) && KeyOf(l.group, ID).Some?
  {
    var joined := JoinRows(db.accountGroups.rows, db.groups.rows, ids, core.predicates);
    assert l in SortLinks(core.order, joined);
    SortLinkMembers(core.order, joined, l);
    JoinGroup(db.accountGroups.rows, db.groups.rows, ids, core.predicates, l);
  }

  lemma ScannedFunctional(db: Store, core: Core, ids: set<int>, columns: seq<Column>)
    requires ID in columns
    ensures Functional(ScanLinks(LinkRows(db, core, ids), columns))
  {
    var raw := LinkRows(db, core, ids);
    var links := ScanLinks(raw, columns);
    forall i, j | 0 <= i < |links| && 0 <= j < |links| && IdOf(links[i].group) == IdOf(links[j].group)
      ensures links[i].group == links[j].group
    {
      LinkFacts(db, core, ids, raw[i]);
      LinkFacts(db, core, ids, raw[j]);
    }
  }

  /** With functional links, an account's groups are the group parts of its join rows. */
  lemma GroupRowsOf(links: seq<Link>, account: int, r: Row)
    requires Functional(links)
    ensures r in GroupsOf(links, account) <==> Link(account, r) in links
  {
    GroupListedIffLinked(links, account, IdOf(r));
    if Link(account, r) in links {
      var l :| 0 <= l < |links| && links[l] == Link(account, r);
      assert Linked(links, account, IdOf(r));
      var i :| 0 <= i < |GroupsOf(links, account)| && IdOf(GroupsOf(links, account)[i]) == IdOf(r);
      GroupFrom(links, account, i);
    }
    if r in GroupsOf(links, account) {
      var i :| 0 <= i < |GroupsOf(links, account)| && GroupsOf(links, account)[i] == r;
      GroupFrom(links, account, i);
      assert Linked(links, account, IdOf(r));
      var j :| 0 <= j < |links| && links[j].account == account && IdOf(links[j].group) == IdOf(r);
      assert links[j].group == r;
      assert links[j] == Link(account, r);
    }
  }

  lemma GroupFrom(links: seq<Link>, account: int, i: nat)
    requires i < |GroupsOf(links, account)|
    ensures exists j :: 0 <= j < |links| && links[j].group == GroupsOf(links, account)[i]
  {
    var firsts := Firsts(GroupIds(links));
    var p := Joined(links, firsts, |firsts|, account)[i];
    assert links[firsts[p]].group == GroupsOf(links, account)[i];
  }

  lemma MembersOf(links: seq<Link>, account: int, r: Row)
    requires Functional(links) && forall i | 0 <= i < |links| :: links[i].account == account
    ensures r in Members(links) <==> Link(account, r) in links
  {
    var ids := GroupIds(links);
    if Link(account, r) in links {
      var i :| 0 <= i < |links| && links[i] == Link(account, r);
      var j := FirstsCover(ids, i);
      assert ids[i] == IdOf(r) && Members(links)[j] == links[Firsts(ids)[j]].group;
    }
    if r in Members(links) {
      var j :| 0 <= j < |Members(links)| && Members(links)[j] == r;
      assert links[Firsts(ids)[j]] == Link(account, r);
    }
  }

  lemma ScannedIn(raw: seq<Link>, columns: seq<Column>, account: int, r: Row)
    ensures Link(account, r) in ScanLinks(raw, columns) <==>
              exists l :: l in raw && l.account == account && Scan(l.group, columns) == r
  {
    var links := ScanLinks(raw, columns);
    if Link(account, r) in links {
      var i :| 0 <= i < |links| && links[i] == Link(account, r);
      assert raw[i] in raw;
    }
    if l :| l in raw && l.account == account && Scan(l.group, columns) == r {
      var i :| 0 <= i < |raw| && raw[i] == l;
      assert links[i] == Link(account, r);
    }
  }

  lemma ScanTells(db: Store, core: Core, ids: set<int>, core': Core, ids': set<int>, columns: seq<Column>, l: Link,
                  m: Link)
    requires ID in columns && l in LinkRows(db, core, ids) && m in LinkRows(db, core', ids')
    requires Scan(l.group, columns) == Scan(m.group, columns)
    ensures l.group == m.group
  {
    LinkFacts(db, core, ids, l);
    LinkFacts(db, core', ids', m);
    assert KeyOf(Scan(l.group, columns), ID) == KeyOf(l.group, ID) &&
             KeyOf(Scan(m.group, columns), ID) == KeyOf(m.group, ID);
  }

  /** The same join rows of account a, as sets. */
  ghost predicate SameLinks(batch: seq<Link>, own: seq<Link>, a: int) {
    forall l: Link | l.account == a :: l in batch <==> l in own
  }

  lemma OwnAccount(db: Store, core: Core, a: int, i: nat)
    requires i < |LinkRows(db, core, {a})|
    ensures LinkRows(db, core, {a})[i].account == a
  {
    var joined := JoinRows(db.accountGroups.rows, db.groups.rows, {a}, core.predicates);
    var sorted := SortLinks(core.order, joined);
    var l := LinkRows(db, core, {a})[i];
    WindowIs(sorted, core.limit, core.offset);
    assert l in sorted;
    SortLinkMembers(core.order, joined, l);
  }

  lemma OwnDistinct(links: seq<Link>, a: int)
    ensures DistinctIds(GroupsOf(links, a)) && DistinctIds(Members(links))
  {
    forall j, k | 0 <= j < k < |GroupsOf(links, a)| ensures IdOf(GroupsOf(links, a)[j]) != IdOf(GroupsOf(links, a)[k]) {
      GroupsDistinct(links, a, j, k);
    }
    forall j, k | 0 <= j < k < |Members(links)| ensures IdOf(Members(links)[j]) != IdOf(Members(links)[k]) {
      MembersDistinct(links, j, k);
    }
  }

  /** Some join row of account a has r as its scanned group. */
  ghost predicate HasGroup(links: seq<Link>, a: int, columns: seq<Column>, r: Row) {
    exists l :: l in links && l.account == a && Scan(l.group, columns) == r
  }

  /** Which rows are among an account's groups: in the batch ... */
  lemma BatchMember(db: Store, core: Core, ids: set<int>, a: int, columns: seq<Column>, r: Row)
    requires ID in columns
    ensures r in GroupsOf(ScanLinks(LinkRows(db, core, ids), columns), a) <==>
              HasGroup(LinkRows(db, core, ids), a, columns, r)
  {
    ScannedFunctional(db, core, ids, columns);
    GroupRowsOf(ScanLinks(LinkRows(db, core, ids), columns), a, r);
    ScannedIn(LinkRows(db, core, ids), columns, a, r);
  }

  /** ... and in its own query. */
  lemma OwnMember(db: Store, core: Core, a: int, columns: seq<Column>, r: Row)
    requires ID in columns
    ensures r in Members(ScanLinks(LinkRows(db, core, {a}), columns)) <==>
              HasGroup(LinkRows(db, core, {a}), a, columns, r)
  {
    var own := LinkRows(db, core, {a});
    ScannedFunctional(db, core, {a}, columns);
    forall i | 0 <= i < |own| ensures own[i].account == a {
      OwnAccount(db, core, a, i);
    }
    MembersOf(ScanLinks(own, columns), a, r);
    ScannedIn(own, columns, a, r);
  }

  /** Join rows of the two lists with equal scanned groups have equal groups. */
  ghost predicate Told(batch: seq<Link>, own: seq<Link>, columns: seq<Column>) {
    forall l, m | l in batch && m in own && Scan(l.group, columns) == Scan(m.group, columns) :: l.group == m.group
  }

  lemma GroupsDecideLinks(batch: seq<Link>, own: seq<Link>, a: int, columns: seq<Column>, l: Link)
    requires Told(batch, own, columns) && l.account == a
    requires forall r :: HasGroup(batch, a, columns, r) <==> HasGroup(own, a, columns, r)
    ensures l in batch <==> l in own
  {
    var r := Scan(l.group, columns);
    if l in batch {
      assert HasGroup(batch, a, columns, r);
      var m :| m in own && m.account == a && Scan(m.group, columns) == r;
      assert m == l;
    }
    if l in own {
      assert HasGroup(own, a, columns, r);
      var m :| m in batch && m.account == a && Scan(m.group, columns) == r;
      assert m == l;
    }
  }

  lemma LinksDecideGroups(batch: seq<Link>, own: seq<Link>, a: int, columns: seq<Column>, r: Row)
    requires SameLinks(batch, own, a)
    ensures HasGroup(batch, a, columns, r) <==> HasGroup(own, a, columns, r)
  {
  }

  lemma RowsAreTold(db: Store, core: Core, ids: set<int>, ids': set<int>, columns: seq<Column>)
    requires ID in columns
    ensures Told(LinkRows(db, core, ids), LinkRows(db, core, ids'), columns)
  {
    var batch, own := LinkRows(db, core, ids), LinkRows(db, core, ids');
    forall l, m | l in batch && m in own && Scan(l.group, columns) == Scan(m.group,
        columns) ensures l.group == m.group {
      ScanTells(db, core, ids, core, ids', columns, l, m);
    }
  }

  /** Equal as sets of groups means equal as sets of join rows. */
  lemma SameGroupsIff(db: Store, core: Core, ids: set<int>, a: int, columns: seq<Column>)
    requires ID in columns
    ensures SameGroups(false, Items(GroupsOf(ScanLinks(LinkRows(db, core, ids), columns), a)),
                              Items(Members(ScanLinks(LinkRows(db, core, {a}), columns)))) <==>
              SameLinks(LinkRows(db, core, ids), LinkRows(db, core, {a}), a)
  {
    var batch, own := LinkRows(db, core, ids), LinkRows(db, core, {a});
    OwnDistinct(ScanLinks(batch, columns), a);
    OwnDistinct(ScanLinks(own, columns), a);
    RowsAreTold(db, core, ids, {a}, columns);
    forall r ensures r in GroupsOf(ScanLinks(batch, columns), a) <==> HasGroup(batch, a, columns, r) {
      BatchMember(db, core, ids, a, columns, r);
    }
    forall r ensures r in Members(ScanLinks(own, columns)) <==> HasGroup(own, a, columns, r) {
      OwnMember(db, core, a, columns, r);
    }
    SetsAgree(GroupsOf(ScanLinks(batch, columns), a), Members(ScanLinks(own, columns)), batch, own, a, columns);
  }

  lemma SetsAgree(gs: seq<Row>, ms: seq<Row>, batch: seq<Link>, own: seq<Link>, a: int, columns: seq<Column>)
    requires Told(batch, own, columns) && DistinctIds(gs) && DistinctIds(ms)
    requires forall r :: r in gs <==> HasGroup(batch, a, columns, r)
    requires forall r :: r in ms <==> HasGroup(own, a, columns, r)
    ensures SameGroups(false, Items(gs), Items(ms)) <==> SameLinks(batch, own, a)
  {
    MembersDecide(batch, own, a, columns);
    if SameGroups(false, Items(gs), Items(ms)) {
      assert forall r :: HasGroup(batch, a, columns, r) <==> r in gs;
    }
  }

  lemma MembersDecide(batch: seq<Link>, own: seq<Link>, a: int, columns: seq<Column>)
    requires Told(batch, own, columns)
    ensures (forall r :: HasGroup(batch, a, columns, r) <==> HasGroup(own, a, columns, r)) <==> SameLinks(batch, own, a)
  {
    if forall r :: HasGroup(batch, a, columns, r) <==> HasGroup(own, a, columns, r) {
      forall l: Link | l.account == a ensures l in batch <==> l in own {
        GroupsDecideLinks(batch, own, a, columns, l);
      }
    }
    if SameLinks(batch, own, a) {
      forall r ensures HasGroup(batch, a, columns, r) <==> HasGroup(own, a, columns, r) {
        LinksDecideGroups(batch, own, a, columns, r);
      }
    }
  }

  // ---------------------------------------------------------------- groups and windows

  lemma {:induction false} AscendingSame(a: seq<nat>, b: seq<nat>)
    requires Ascending(a) && Ascending(b) && forall i: nat :: i in a <==> i in b
    ensures a == b
  {
    if |a| > 0 { assert a[0] in b; }
    if |b| > 0 { assert b[0] in a; }
    if |a| > 0 {
      assert a[0] == b[0];
      forall i: nat ensures i in a[1..] <==> i in b[1..] {
        assert i in a <==> i == a[0] || i in a[1..];
        assert i in b <==> i == b[0] || i in b[1..];
      }
      AscendingSame(a[1..], b[1..]);
    }
  }

  lemma PickMember<T>(s: seq<T>, idx: seq<nat>, x: T)
    requires forall j | 0 <= j < |idx| :: idx[j] < |s|
    ensures x in Pick(s, idx) <==> exists i: nat :: i in idx && i < |s| && s[i] == x
  {
    if x in Pick(s, idx) {
      var j :| 0 <= j < |idx| && Pick(s, idx)[j] == x;
      assert idx[j] in idx;
    }
    if i: nat :| i in idx && i < |s| && s[i] == x {
      var j :| 0 <= j < |idx| && idx[j] == i;
      assert Pick(s, idx)[j] == x;
    }
  }

  /** The rows of account a in a list, as positions. */
  lemma MyRows(links: seq<Link>, a: int, l: Link)
    ensures l in Pick(links, Hits(Accounts(links), a)) <==> l in links && l.account == a
  {
    HitsExact(Accounts(links), |links|, a);
    PickMember(links, Hits(Accounts(links), a), l);
    if l in links && l.account == a {
      var i :| 0 <= i < |links| && links[i] == l;
      assert i in Hits(Accounts(links), a);
    }
  }

  lemma AccountsWindow(links: seq<Link>, limit: Option<nat>, offset: Option<nat>)
    ensures Accounts(Window(links, limit, offset)) == Window(Accounts(links), limit, offset)
  {
    WindowIs(links, limit, offset);
    WindowIs(Accounts(links), limit, offset);
    AccountsSlice(links, Lo(|links|, offset), Hi(|links|, limit, offset));
  }

  lemma AccountsSlice(links: seq<Link>, lo: nat, hi: nat)
    requires lo <= hi <= |links|
    ensures Accounts(links[lo..hi]) == Accounts(links)[lo..hi]
  {
  }

  lemma WindowAscends(idx: seq<nat>, limit: Option<nat>, offset: Option<nat>)
    requires Ascending(idx)
    ensures Ascending(Window(idx, limit, offset))
  {
    WindowIs(idx, limit, offset);
  }

  /** Where no join row is there twice, equal sets mean equal positions. */
  lemma SetsDecide(all: seq<Link>, x: seq<nat>, y: seq<nat>)
    requires NoRepeats(all) && Ascending(x) && Ascending(y)
    requires (forall j | 0 <= j < |x| :: x[j] < |all|) && (forall j | 0 <= j < |y| :: y[j] < |all|)
    requires forall l :: l in Pick(all, x) <==> l in Pick(all, y)
    ensures x == y
  {
    forall i: nat ensures i in x <==> i in y {
      if i in x {
        PickMember(all, x, all[i]);
        PickMember(all, y, all[i]);
      }
      if i in y {
        PickMember(all, x, all[i]);
        PickMember(all, y, all[i]);
      }
    }
    AscendingSame(x, y);
  }

  /** What account a gets from the windowed batch, and what its own windowed list is, as positions. */
  lemma Positions(all: seq<Link>, limit: Option<nat>, offset: Option<nat>, a: int) returns (x: seq<nat>, y: seq<nat>)
    ensures Ascending(x) && Ascending(y)
    ensures (forall j | 0 <= j < |x| :: x[j] < |all|) && (forall j | 0 <= j < |y| :: y[j] < |all|)
    ensures Served(Accounts(all), limit, offset, a) <==> x == y
    ensures var w, owners := Window(all, limit, offset), Accounts(all);
            && Pick(w, Hits(Accounts(w), a)) == Pick(all, x)
            && Window(Pick(all, Hits(owners, a)), limit, offset) == Pick(all, y)
  {
    var owners := Accounts(all);
    var lo, hi := Lo(|all|, offset), Hi(|all|, limit, offset);
    x, y := Between(owners, lo, hi, a), Window(Hits(owners, a), limit, offset);
    AccountsWindow(all, limit, offset);
    WindowIs(all, limit, offset);
    WindowIs(owners, limit, offset);
    PickSlice(all, owners, lo, hi, a);
    PickWindow(all, Hits(owners, a), limit, offset);
    assert forall j | 0 <= j < |y| :: y[j] < |all|;
    BetweenAscends(owners, lo, hi, a);
    HitsInThree(owners, lo, hi, a);
    WindowAscends(Hits(owners, a), limit, offset);
  }

  lemma SameLinksNeeds(all: seq<Link>, limit: Option<nat>, offset: Option<nat>, a: int)
    requires NoRepeats(all)
    requires SameLinks(Window(all, limit, offset), Window(Pick(all, Hits(Accounts(all), a)), limit, offset), a)
    ensures Served(Accounts(all), limit, offset, a)
  {
    var x, y := Positions(all, limit, offset, a);
    forall l ensures l in Pick(all, x) <==> l in Pick(all, y) {
      MyRows(Window(all, limit, offset), a, l);
      WindowedAccount(all, limit, offset, a, l);
    }
    SetsDecide(all, x, y);
  }

  lemma WindowedAccount(all: seq<Link>, limit: Option<nat>, offset: Option<nat>, a: int, l: Link)
    ensures l in Window(Pick(all, Hits(Accounts(all), a)), limit, offset) ==> l.account == a
  {
    var mine := Pick(all, Hits(Accounts(all), a));
    WindowIs(mine, limit, offset);
    MyRows(all, a, l);
  }

  lemma SameLinksIff(db: Store, q: Core, ids: set<int>, a: int)
    requires a in ids && (Unwindowed(q) || PairsDistinct(db.accountGroups.rows))
    ensures SameLinks(LinkRows(db, Traverse(q), ids), LinkRows(db, Traverse(q), {a}), a) <==>
              Served(LinkOwners(db, q, ids), q.limit, q.offset, a)
  {
    var all := AllLinks(db, q, ids);
    AllLinksIs(db, q, ids);
    OwnLinksAre(db, q, ids, a);
    if Unwindowed(q) {
      LinkOwnersKnown(db, q, ids);
      UnwindowedFits(LinkOwners(db, q, ids), q.limit, q.offset);
      FitsIff(LinkOwners(db, q, ids), q.limit, q.offset);
      assert Served(LinkOwners(db, q, ids), q.limit, q.offset, a);
    } else if SameLinks(LinkRows(db, Traverse(q), ids), LinkRows(db, Traverse(q), {a}), a) {
      AllLinksNoRepeats(db, q, ids);
      SameLinksNeeds(all, q.limit, q.offset, a);
    }
    if Served(LinkOwners(db, q, ids), q.limit, q.offset, a) {
      ServedGives(all, q.limit, q.offset, a);
    }
  }

  lemma ServedGives(all: seq<Link>, limit: Option<nat>, offset: Option<nat>, a: int)
    requires Served(Accounts(all), limit, offset, a)
    ensures SameLinks(Window(all, limit, offset), Window(Pick(all, Hits(Accounts(all), a)), limit, offset), a)
  {
    var x, y := Positions(all, limit, offset, a);
    forall l: Link | l.account == a ensures
      l in Window(all, limit, offset) <==> l in Window(Pick(all, Hits(Accounts(all), a)), limit, offset)
    {
      MyRows(Window(all, limit, offset), a, l);
    }
  }

  lemma GroupsOfNode(db: Store, q: Core, base: seq<Row>, i: nat)
    requires db.Valid() && GroupLinks(db, q, base).Ok? && i < |base|
    requires Unwindowed(q) || PairsDistinct(db.accountGroups.rows)
    ensures SameGroups(false, Items(GroupsOf(GroupLinks(db, q, base).value, IdOf(base[i]))),
                       Items(OwnGroups(db, q, base[i]))) <==>
              Served(LinkOwners(db, q, KeySet(IdKeys(base))), q.limit, q.offset, IdOf(base[i]))
  {
    var ids := KeySet(IdKeys(base));
    InIds(base, i);
    SameGroupsIff(db, Traverse(q), ids, IdOf(base[i]), IdColumns(q.fields, db.groups.columns));
    SameLinksIff(db, q, ids, IdOf(base[i]));
  }

  /** Groups: every node gets the groups of its own sub-query, exactly if the batch of join rows fits. */
  lemma GroupsIff(db: Store, q: Core, base: seq<Row>)
    requires db.Valid() && GroupLinks(db, q, base).Ok? && (Unwindowed(q) || PairsDistinct(db.accountGroups.rows))
    ensures (forall i | 0 <= i < |base| ::
               SameGroups(false, Items(GroupsOf(GroupLinks(db, q, base).value, IdOf(base[i]))),
                          Items(OwnGroups(db, q, base[i])))) <==>
              Fits(LinkOwners(db, q, KeySet(IdKeys(base))), q.limit, q.offset)
  {
    var owners := LinkOwners(db, q, KeySet(IdKeys(base)));
    LinkOwnersKnown(db, q, KeySet(IdKeys(base)));
    ServedNodes(owners, q.limit, q.offset, base);
    forall i | 0 <= i < |base| ensures
      SameGroups(false, Items(GroupsOf(GroupLinks(db, q, base).value, IdOf(base[i]))),
                 Items(OwnGroups(db, q, base[i]))) <==>
        Served(owners, q.limit, q.offset, IdOf(base[i]))
    {
      GroupsOfNode(db, q, base, i);
    }
  }
}
