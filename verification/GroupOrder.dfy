/** The order of an account's groups: in a batch it is that of the account's own query for every
    store exactly when the order terms of the sub-query separate the groups. */
module GroupOrder {
  import opened Schema
  import opened Store
  import opened QueryFacts
  import opened EagerSpec
  import opened ManyToMany
  import opened Windows
  import opened PerNodeSpec
  import opened Links
  import Projection

  // ---------------------------------------------------------------- sorted lists without ties

  lemma {:induction false} LeqReflexive(o: seq<OrderTerm>, r: Row)
    ensures Leq(o, r, r)
  {
    if o != [] { LeqReflexive(o[1..], r); }
  }

  ghost predicate Untied(o: seq<OrderTerm>, rows: seq<Row>) {
    forall r, s | r in rows && s in rows && r != s :: !Tied(o, r, s)
  }

  lemma FirstLeq(o: seq<OrderTerm>, rows: seq<Row>, r: Row)
    requires Sorted(o, rows) && r in rows
    ensures Leq(o, rows[0], r)
  {
    LeqReflexive(o, r);
    var j :| 0 <= j < |rows| && rows[j] == r;
  }

  lemma RestSame(a: seq<Row>, b: seq<Row>, r: Row)
    requires a != [] && b != [] && a[0] == b[0] && DistinctIds(a) && DistinctIds(b) && (r in a <==> r in b)
    ensures r in a[1..] <==> r in b[1..]
  {
    assert r in a <==> r == a[0] || r in a[1..];
    assert r in b <==> r == b[0] || r in b[1..];
    if r in a[1..] {
      var j :| 0 <= j < |a[1..]| && a[1..][j] == r;
      assert a[j + 1] == r;
    }
    if r in b[1..] {
      var j :| 0 <= j < |b[1..]| && b[1..][j] == r;
      assert b[j + 1] == r;
    }
  }

  /** Two sorted lists of the same rows, none tied with another, are one list. */
  lemma {:induction false} SortedUnique(o: seq<OrderTerm>, a: seq<Row>, b: seq<Row>)
    requires Sorted(o, a) && Sorted(o, b) && DistinctIds(a) && DistinctIds(b) && Untied(o, a)
    requires forall r :: r in a <==> r in b
    ensures a == b
  {
    if |a| > 0 { assert a[0] in b; }
    if |b| > 0 { assert b[0] in a; }
    if |a| > 0 {
      FirstLeq(o, a, b[0]);
      FirstLeq(o, b, a[0]);
      assert a[0] == b[0];
      forall r ensures r in a[1..] <==> r in b[1..] {
        RestSame(a, b, r);
      }
      SortedUnique(o, a[1..], b[1..]);
    }
  }

  // ---------------------------------------------------------------- groups are sorted

  lemma MembersSorted(o: seq<OrderTerm>, links: seq<Link>)
    requires SortedLinks(o, links)
    ensures Sorted(o, Members(links))
  {
    var firsts := Firsts(GroupIds(links));
    FirstsIncrease(GroupIds(links), |links|);
    forall i, j | 0 <= i < j < |Members(links)| ensures Leq(o, Members(links)[i], Members(links)[j]) {
      assert firsts[i] < firsts[j];
    }
  }

  lemma GroupsSorted(o: seq<OrderTerm>, links: seq<Link>, a: int)
    requires SortedLinks(o, links)
    ensures Sorted(o, GroupsOf(links, a))
  {
    MembersSorted(o, links);
    var idx := GroupsAreSubsequence(links, a);
    forall i, j | 0 <= i < j < |idx| ensures Leq(o, GroupsOf(links, a)[i], GroupsOf(links, a)[j]) {
      assert idx[i] < idx[j];
    }
  }

  lemma LinkRowsSorted(db: Store, q: Core, ids: set<int>)
    ensures SortedLinks(q.order, LinkRows(db, Traverse(q), ids))
  {
    AllLinksIs(db, q, ids);
    SortLinksSorted(q.order, JoinRows(db.accountGroups.rows, db.groups.rows, ids, Traverse(q).predicates));
    WindowIs(AllLinks(db, q, ids), q.limit, q.offset);
  }

  /** Scanning commutes with finding an account's groups, because the ID is always scanned. */
  lemma ScanGroups(links: seq<Link>, a: int, columns: seq<Column>)
    requires ID in columns && forall i | 0 <= i < |links| :: KeyOf(links[i].group, ID).Some?
    ensures GroupsOf(ScanLinks(links, columns), a) == ScanRows(GroupsOf(links, a), columns)
    ensures Members(ScanLinks(links, columns)) == ScanRows(Members(links), columns)
  {
    var scanned := ScanLinks(links, columns);
    assert GroupIds(scanned) == GroupIds(links);
    var firsts := Firsts(GroupIds(links));
    assert Members(scanned) == ScanRows(Members(links), columns);
    Projection.JoinedSame(scanned, links, firsts, |firsts|, a);
  }

  lemma RowsHaveIds(db: Store, core: Core, ids: set<int>)
    ensures forall i | 0 <= i < |LinkRows(db, core, ids)| :: KeyOf(LinkRows(db, core, ids)[i].group, ID).Some?
    ensures Functional(LinkRows(db, core, ids))
  {
    var links := LinkRows(db, core, ids);
    forall i | 0 <= i < |links|
      ensures KeyOf(links[i].group, ID).Some?
      ensures GroupRow(db.groups.rows, Some(IdOf(links[i].group))) == Some(links[i].group)
    {
      assert links[i] in links;
      LinkFacts(db, core, ids, links[i]);
    }
  }

  /** A joined row has a group of the table that passes the predicates. */
  lemma {:induction false} JoinPasses(joins: seq<Row>, groups: seq<Row>, ids: set<int>, ps: seq<Pred>, l: Link)
    requires l in JoinRows(joins, groups, ids, ps)
    ensures l.group in groups && HoldsAll(ps, l.group)
  {
    JoinCons(joins, groups, ids, ps);
    if FirstLink(joins, groups, ids, ps) != Some(l) {
      JoinPasses(joins[1..], groups, ids, ps, l);
    }
  }

  lemma LinkPasses(db: Store, q: Core, ids: set<int>, l: Link)
    requires l in LinkRows(db, Traverse(q), ids)
    ensures l.group in db.groups.rows && HoldsAll(Traverse(q).predicates, l.group)
  {
    var joined := JoinRows(db.accountGroups.rows, db.groups.rows, ids, Traverse(q).predicates);
    AllLinksIs(db, q, ids);
    WindowIs(AllLinks(db, q, ids), q.limit, q.offset);
    assert l in AllLinks(db, q, ids);
    SortLinkMembers(q.order, joined, l);
    JoinPasses(db.accountGroups.rows, db.groups.rows, ids, Traverse(q).predicates, l);
  }

  lemma GroupsUntied(db: Store, q: Core, ids: set<int>, a: int)
    requires Separates(db.groups.rows, q)
    ensures Untied(q.order, GroupsOf(LinkRows(db, Traverse(q), ids), a))
  {
    var links := LinkRows(db, Traverse(q), ids);
    forall r | r in GroupsOf(links, a) ensures r in db.groups.rows && HoldsAll(Traverse(q).predicates, r) {
      RowsHaveIds(db, Traverse(q), ids);
      GroupRowsOf(links, a, r);
      LinkPasses(db, q, ids, Link(a, r));
    }
  }

  lemma SameRawGroups(db: Store, core: Core, ids: set<int>, a: int, r: Row)
    requires SameLinks(LinkRows(db, core, ids), LinkRows(db, core, {a}), a)
    ensures r in GroupsOf(LinkRows(db, core, ids), a) <==> r in Members(LinkRows(db, core, {a}))
  {
    var own := LinkRows(db, core, {a});
    RowsHaveIds(db, core, ids);
    RowsHaveIds(db, core, {a});
    GroupRowsOf(LinkRows(db, core, ids), a, r);
    forall i | 0 <= i < |own| ensures own[i].account == a {
      OwnAccount(db, core, a, i);
    }
    MembersOf(own, a, r);
    assert Link(a, r) in LinkRows(db, core, ids) <==> Link(a, r) in own;
  }

  /** With separating order terms, the same groups are the same list. */
  lemma StrictGroups(db: Store, q: Core, base: seq<Row>, i: nat)
    requires db.Valid() && GroupLinks(db, q, base).Ok? && i < |base| && Separates(db.groups.rows, q)
    requires SameGroups(false, Items(GroupsOf(GroupLinks(db, q, base).value, IdOf(base[i]))),
                        Items(OwnGroups(db, q, base[i])))
    ensures GroupsOf(GroupLinks(db, q, base).value, IdOf(base[i])) == OwnGroups(db, q, base[i])
  {
    var core, ids, a := Traverse(q), KeySet(IdKeys(base)), IdOf(base[i]);
    var columns := IdColumns(q.fields, db.groups.columns);
    var batch, own := LinkRows(db, core, ids), LinkRows(db, core, {a});
    SameGroupsIff(db, core, ids, a, columns);
    RowsHaveIds(db, core, ids);
    RowsHaveIds(db, core, {a});
    ScanGroups(batch, a, columns);
    ScanGroups(own, a, columns);
    RawGroupsEqual(db, q, ids, a);
  }

  lemma RawGroupsEqual(db: Store, q: Core, ids: set<int>, a: int)
    requires Separates(db.groups.rows, q)
    requires SameLinks(LinkRows(db, Traverse(q), ids), LinkRows(db, Traverse(q), {a}), a)
    ensures GroupsOf(LinkRows(db, Traverse(q), ids), a) == Members(LinkRows(db, Traverse(q), {a}))
  {
    var batch, own := LinkRows(db, Traverse(q), ids), LinkRows(db, Traverse(q), {a});
    LinkRowsSorted(db, q, ids);
    LinkRowsSorted(db, q, {a});
    GroupsSorted(q.order, batch, a);
    MembersSorted(q.order, own);
    OwnDistinct(batch, a);
    OwnDistinct(own, a);
    GroupsUntied(db, q, ids, a);
    forall r ensures r in GroupsOf(batch, a) <==> r in Members(own) {
      SameRawGroups(db, Traverse(q), ids, a, r);
    }
    SortedUnique(q.order, GroupsOf(batch, a), Members(own));
  }

  // ---------------------------------------------------------------- the condition is exact

  /** In every batch over this store, each account has its groups in the order of its own query. */
  ghost predicate OrderAgrees(db: Store, q: Core, base: seq<Row>) {
    GroupLinks(db, q, base).Ok? ==>
      forall i | 0 <= i < |base| :: GroupsOf(GroupLinks(db, q, base).value, IdOf(base[i])) == OwnGroups(db, q, base[i])
  }

  function JoinRow(account: int, group: Row): Row {
    map[AccountID := Int(account), GroupID := Int(IdOf(group))]
  }

  /** Account 2 has group h; account 1 has g and then h. */
  function JoinTable(g: Row, h: Row): seq<Row> {
    [JoinRow(2, h), JoinRow(1, g), JoinRow(1, h)]
  }

  function Crossed(groups: Table, g: Row, h: Row): Store {
    Store(
      Table([ID, ProxyID, ParentAccountID], []), groups, Table([ID], []), Table([ID, AccountID], []),
      Table([AccountID, GroupID], JoinTable(g, h)))
  }

  function TwoNodes(): seq<Row> {
    [map[ID := Int(1)], map[ID := Int(2)]]
  }

  lemma GroupFound(groups: seq<Row>, g: Row)
    requires PrimaryKey(groups) && g in groups
    ensures GroupRow(groups, Some(IdOf(g))) == Some(g)
  {
    var i :| 0 <= i < |groups| && groups[i] == g;
    var keys := Keys(groups, ID);
    LastExact(keys, |groups|, Some(IdOf(g)));
    assert keys[i] == Some(IdOf(g));
    var j := LastHit(keys, Some(IdOf(g)));
    assert j >= i && keys[j] == keys[i];
  }

  /** One row of account_groups in front. */
  lemma JoinNext(account: int, g: Row, rest: seq<Row>, groups: seq<Row>, ids: set<int>, ps: seq<Pred>)
    requires PrimaryKey(groups) && g in groups && HoldsAll(ps, g)
    ensures JoinRows([JoinRow(account, g)] + rest, groups, ids, ps) ==
              (if account in ids then [Link(account, g)] else []) + JoinRows(rest, groups, ids, ps)
  {
    GroupFound(groups, g);
    var joins := [JoinRow(account, g)] + rest;
    assert joins[1..] == rest;
    JoinCons(joins, groups, ids, ps);
  }

  lemma CrossedJoin(groups: seq<Row>, g: Row, h: Row, ids: set<int>, ps: seq<Pred>)
    requires PrimaryKey(groups) && g in groups && h in groups && HoldsAll(ps, g) && HoldsAll(ps, h) && 1 in ids
    ensures JoinRows(JoinTable(g, h), groups, ids, ps) ==
              if 2 in ids then [Link(2, h), Link(1, g), Link(1, h)] else [Link(1, g), Link(1, h)]
  {
    assert [JoinRow(2, h), JoinRow(1, g), JoinRow(1, h)] == [JoinRow(2,
                                                                     h)] + ([JoinRow(1, g)] + ([JoinRow(1, h)] + []));
    JoinNext(1, h, [], groups, ids, ps);
    JoinNext(1, g, [JoinRow(1, h)] + [], groups, ids, ps);
    JoinNext(2, h, [JoinRow(1, g)] + ([JoinRow(1, h)] + []), groups, ids, ps);
  }

  /** Tied join rows keep their order. */
  lemma TiedPair(o: seq<OrderTerm>, x: Link, y: Link)
    requires Leq(o, x.group, y.group)
    ensures SortLinks(o, [x, y]) == [x, y]
  {
    assert [x, y][1..] == [y] && [y][1..] == [];
    assert InsertLink(o, y, []) == [y];
    assert SortLinks(o, [y]) == [y];
    assert InsertLink(o, x, [y]) == [x] + [y];
  }

  lemma TiedTriple(o: seq<OrderTerm>, x: Link, y: Link, z: Link)
    requires Leq(o, x.group, y.group) && Leq(o, y.group, z.group)
    ensures SortLinks(o, [x, y, z]) == [x, y, z]
  {
    assert [x, y, z][1..] == [y, z];
    TiedPair(o, y, z);
  }

  /** Join rows that are in order already are what the query returns. */
  lemma LinksFrom(db: Store, q: Core, ids: set<int>, links: seq<Link>)
    requires Unwindowed(q) && SortLinks(q.order, links) == links
    requires JoinRows(db.accountGroups.rows, db.groups.rows, ids, Traverse(q).predicates) == links
    ensures LinkRows(db, Traverse(q), ids) == links
  {
    AllLinksIs(db, q, ids);
  }

  lemma CrossedLinks(db: Store, g: Row, h: Row, q: Core)
    requires db.accountGroups.rows == JoinTable(g, h) && PrimaryKey(db.groups.rows) && Unwindowed(q)
    requires g in db.groups.rows && h in db.groups.rows && Tied(q.order, g, h)
    requires HoldsAll(Traverse(q).predicates, g) && HoldsAll(Traverse(q).predicates, h)
    ensures LinkRows(db, Traverse(q), {1, 2}) == [Link(2, h), Link(1, g), Link(1, h)]
    ensures LinkRows(db, Traverse(q), {1}) == [Link(1, g), Link(1, h)]
  {
    CrossedJoin(db.groups.rows, g, h, {1, 2}, Traverse(q).predicates);
    CrossedJoin(db.groups.rows, g, h, {1}, Traverse(q).predicates);
    TiedPair(q.order, Link(1, g), Link(1, h));
    TiedTriple(q.order, Link(2, h), Link(1, g), Link(1, h));
    LinksFrom(db, q, {1, 2}, [Link(2, h), Link(1, g), Link(1, h)]);
    LinksFrom(db, q, {1}, [Link(1, g), Link(1, h)]);
  }

  /** Account 1 has [h, g] in the batch ... */
  lemma BatchOrder(g: Row, h: Row)
    requires IdOf(g) != IdOf(h)
    ensures GroupsOf([Link(2, h), Link(1, g), Link(1, h)], 1) == [h, g]
  {
    var links := [Link(2, h), Link(1, g), Link(1, h)];
    var ids := GroupIds(links);
    assert ids == [IdOf(h), IdOf(g), IdOf(h)];
    assert FirstsTo(ids, 0) == [];
    assert FirstsTo(ids, 1) == [0];
    assert FirstsTo(ids, 2) == [0, 1];
    assert Occurs(ids, 2, ids[2]) by { assert ids[0] == ids[2]; }
    assert Firsts(ids) == [0, 1];
    assert Members(links) == [h, g];
    assert Linked(links, 1, IdOf(h)) by { assert links[2].account == 1; }
    assert Linked(links, 1, IdOf(g)) by { assert links[1].account == 1; }
    assert Joined(links, [0, 1], 0, 1) == [];
    assert Joined(links, [0, 1], 1, 1) == [0];
    assert Joined(links, [0, 1], 2, 1) == [0, 1];
  }

  /** ... and [g, h] in its own query. */
  lemma OwnOrder(g: Row, h: Row)
    requires IdOf(g) != IdOf(h)
    ensures Members([Link(1, g), Link(1, h)]) == [g, h]
  {
    var ids := GroupIds([Link(1, g), Link(1, h)]);
    assert ids == [IdOf(g), IdOf(h)];
    assert FirstsTo(ids, 0) == [];
    assert FirstsTo(ids, 1) == [0];
    assert FirstsTo(ids, 2) == [0, 1];
  }

  lemma TwoIds()
    ensures KeySet(IdKeys(TwoNodes())) == {1, 2}
    ensures |TwoNodes()| == 2 && IdOf(TwoNodes()[0]) == 1
  {
    assert IdKeys(TwoNodes()) == [Some(1), Some(2)];
    assert KeysTo(IdKeys(TwoNodes()), 1) == {1};
  }

  lemma DistinctRows(rows: seq<Row>, g: Row, h: Row)
    requires PrimaryKey(rows) && g in rows && h in rows && g != h
    ensures IdOf(g) != IdOf(h) && KeyOf(g, ID).Some? && KeyOf(h, ID).Some?
  {
    var i :| 0 <= i < |rows| && rows[i] == g;
    var j :| 0 <= j < |rows| && rows[j] == h;
  }

  lemma ScanPair(r: Row, s: Row, columns: seq<Column>)
    ensures ScanRows([r, s], columns) == [Scan(r, columns), Scan(s, columns)]
  {
  }

  lemma ScanTellsApart(g: Row, h: Row, columns: seq<Column>)
    requires IdOf(g) != IdOf(h) && KeyOf(g, ID).Some? && KeyOf(h, ID).Some? && ID in columns
    ensures Scan(g, columns) != Scan(h, columns)
  {
    assert IdOf(Scan(g, columns)) == IdOf(g) && IdOf(Scan(h, columns)) == IdOf(h);
  }

  /** The two lists of account 1, scanned. */
  lemma CrossedLists(three: seq<Link>, two: seq<Link>, g: Row, h: Row, columns: seq<Column>)
    requires GroupsOf(three, 1) == [h, g] && Members(two) == [g, h] && ID in columns
    requires forall i | 0 <= i < |three| :: KeyOf(three[i].group, ID).Some?
    requires forall i | 0 <= i < |two| :: KeyOf(two[i].group, ID).Some?
    ensures GroupsOf(ScanLinks(three, columns), 1) == [Scan(h, columns), Scan(g, columns)]
    ensures Members(ScanLinks(two, columns)) == [Scan(g, columns), Scan(h, columns)]
  {
    ScanGroups(three, 1, columns);
    ScanGroups(two, 1, columns);
    ScanPair(g, h, columns);
    ScanPair(h, g, columns);
  }

  lemma LinksShown(db: Store, q: Core, base: seq<Row>, ids: set<int>, columns: seq<Column>)
    requires Prepare(q, db.groups.columns).Ok? && KeySet(IdKeys(base)) == ids
    requires columns == IdColumns(q.fields, db.groups.columns)
    ensures GroupLinks(db, q, base) == Ok(ScanLinks(LinkRows(db, Traverse(q), ids), columns))
  {
  }

  lemma OwnShown(db: Store, q: Core, f: Row, a: int, columns: seq<Column>)
    requires IdOf(f) == a && columns == IdColumns(q.fields, db.groups.columns)
    ensures OwnGroups(db, q, f) == Members(ScanLinks(LinkRows(db, Traverse(q), {a}), columns))
  {
  }

  /** Two tied groups g and h come in opposite orders for account 1. */
  lemma CrossedDiffers(db: Store, g: Row, h: Row, q: Core, columns: seq<Column>)
    requires db.accountGroups.rows == JoinTable(g, h) && PrimaryKey(db.groups.rows) && ID in db.groups.columns
    requires Prepare(q, db.groups.columns).Ok? && Unwindowed(q) && columns == IdColumns(q.fields, db.groups.columns)
    requires g in db.groups.rows && h in db.groups.rows && g != h && Tied(q.order, g, h)
    requires HoldsAll(Traverse(q).predicates, g) && HoldsAll(Traverse(q).predicates, h)
    ensures GroupLinks(db, q, TwoNodes()).Ok?
    ensures GroupsOf(GroupLinks(db, q, TwoNodes()).value, 1) == [Scan(h, columns), Scan(g, columns)]
    ensures OwnGroups(db, q, TwoNodes()[0]) == [Scan(g, columns), Scan(h, columns)]
    ensures Scan(g, columns) != Scan(h, columns)
  {
    TwoIds();
    CrossedLinks(db, g, h, q);
    DistinctRows(db.groups.rows, g, h);
    BatchOrder(g, h);
    OwnOrder(g, h);
    ScanTellsApart(g, h, columns);
    RowsHaveIds(db, Traverse(q), {1, 2});
    RowsHaveIds(db, Traverse(q), {1});
    CrossedLists(LinkRows(db, Traverse(q), {1, 2}), LinkRows(db, Traverse(q), {1}), g, h, columns);
    LinksShown(db, q, TwoNodes(), {1, 2}, columns);
    OwnShown(db, q, TwoNodes()[0], 1, columns);
  }

  lemma CrossedValid(groups: Table, g: Row, h: Row)
    requires PrimaryKey(groups.rows) && IdFirst(groups.columns)
    ensures Crossed(groups, g, h).Valid()
    ensures Crossed(groups, g, h).groups == groups && Crossed(groups, g, h).accountGroups.rows == JoinTable(g, h)
  {
  }

  lemma ListsDisagree(db: Store, q: Core, base: seq<Row>, r: Row, s: Row)
    requires GroupLinks(db, q, base).Ok? && |base| > 0 && IdOf(base[0]) == 1 && r != s
    requires GroupsOf(GroupLinks(db, q, base).value, 1) == [s, r] && OwnGroups(db, q, base[0]) == [r, s]
    ensures !OrderAgrees(db, q, base)
  {
    assert [s, r][0] != [r, s][0];
  }

  /** The store and batch over which two tied groups are listed in different orders. */
  lemma TieBreaksOrder(groups: Table, q: Core) returns (db: Store)
    requires PrimaryKey(groups.rows) && IdFirst(groups.columns) && Prepare(q, groups.columns).Ok? && Unwindowed(q)
    requires !Separates(groups.rows, q)
    ensures db.Valid() && db.groups == groups && !OrderAgrees(db, q, TwoNodes())
  {
    var g, h :| g in groups.rows && h in groups.rows && g != h && Tied(q.order, g, h)
      && HoldsAll(Traverse(q).predicates, g) && HoldsAll(Traverse(q).predicates, h);
    db := Crossed(groups, g, h);
    CrossedValid(groups, g, h);
    CrossedDiffers(db, g, h, q, IdColumns(q.fields, groups.columns));
    TwoIds();
    ListsDisagree(db, q, TwoNodes(), Scan(g, IdColumns(q.fields, groups.columns)),
                  Scan(h, IdColumns(q.fields, groups.columns)));
  }

  lemma SeparatedAgrees(db: Store, q: Core, base: seq<Row>)
    requires db.Valid() && Unwindowed(q) && Separates(db.groups.rows, q)
    ensures OrderAgrees(db, q, base)
  {
    if GroupLinks(db, q, base).Ok? {
      GroupsIff(db, q, base);
      UnwindowedFits(LinkOwners(db, q, KeySet(IdKeys(base))), q.limit, q.offset);
      forall i | 0 <= i < |base|
        ensures GroupsOf(GroupLinks(db, q, base).value, IdOf(base[i])) == OwnGroups(db, q, base[i])
      {
        StrictGroups(db, q, base, i);
      }
    }
  }

  // ---------------------------------------------------------------- groups sub-queries with a window

  /** The accounts 0 to n - 1, and one join row of each with group g. */
  function ManyNodes(n: nat): (base: seq<Row>)
    ensures |base| == n && forall i | 0 <= i < n :: base[i] == map[ID := Int(i)]
  {
    seq(n, i requires 0 <= i < n => map[ID := Int(i)])
  }

  function OneGroup(g: Row, n: nat): (joins: seq<Row>)
    ensures |joins| == n && forall i | 0 <= i < n :: joins[i] == JoinRow(i, g)
  {
    seq(n, i requires 0 <= i < n => JoinRow(i, g))
  }

  function Fan(groups: Table, g: Row, n: nat): Store {
    Store(
      Table([ID, ProxyID, ParentAccountID], []), groups, Table([ID], []), Table([ID, AccountID], []),
      Table([AccountID, GroupID], OneGroup(g, n)))
  }

  lemma FanValid(groups: Table, g: Row, n: nat)
    requires PrimaryKey(groups.rows) && IdFirst(groups.columns)
    ensures Fan(groups, g, n).Valid() && PairsDistinct(OneGroup(g, n))
  {
    var joins := OneGroup(g, n);
    forall i | 0 <= i < n ensures KeyOf(joins[i], AccountID) == Some(i) {
      assert joins[i][AccountID] == Int(i);
    }
  }

  lemma ManyIds(n: nat, i: nat)
    requires i < n
    ensures IdOf(ManyNodes(n)[i]) == i && i in KeySet(IdKeys(ManyNodes(n)))
  {
    var keys := IdKeys(ManyNodes(n));
    KeysExact(keys, n);
    assert ManyNodes(n)[i][ID] == Int(i);
    assert keys[i] == Some(i);
  }

  /** Links from account `from` on, all to group g. */
  ghost predicate FanLinks(links: seq<Link>, from: nat, g: Row) {
    forall i | 0 <= i < |links| :: links[i] == Link(from + i, g)
  }

  lemma {:induction false} FanJoined(joins: seq<Row>, from: nat, groups: seq<Row>, g: Row, ids: set<int>, ps: seq<Pred>)
    requires PrimaryKey(groups) && g in groups && HoldsAll(ps, g)
    requires forall i | 0 <= i < |joins| :: joins[i] == JoinRow(from + i, g) && from + i in ids
    ensures |JoinRows(joins, groups, ids, ps)| == |joins| && FanLinks(JoinRows(joins, groups, ids, ps), from, g)
  {
    if joins != [] {
      GroupFound(groups, g);
      assert joins[0] == JoinRow(from + 0, g);
      forall i | 0 <= i < |joins[1..]| ensures joins[1..][i] == JoinRow(from + 1 + i, g) && from + 1 + i in ids {
        assert joins[1..][i] == joins[i + 1];
      }
      FanJoined(joins[1..], from + 1, groups, g, ids, ps);
      FanCons(JoinRows(joins[1..], groups, ids, ps), from, g);
    }
  }

  lemma FanCons(rest: seq<Link>, from: nat, g: Row)
    requires FanLinks(rest, from + 1, g)
    ensures FanLinks([Link(from, g)] + rest, from, g)
  {
  }

  /** Sorting links to one group keeps them as they are. */
  lemma {:induction false} FanSorted(o: seq<OrderTerm>, links: seq<Link>, g: Row)
    requires forall i | 0 <= i < |links| :: links[i].group == g
    ensures SortLinks(o, links) == links
  {
    if links != [] {
      FanSorted(o, links[1..], g);
      LeqTotal(o, g, g);
      assert links == [links[0]] + links[1..];
    }
  }

  /** Every link of the fan has another owner. */
  lemma FanOwners(groups: Table, g: Row, n: nat, q: Core)
    requires PrimaryKey(groups.rows) && g in groups.rows && HoldsAll(Traverse(q).predicates, g)
    ensures var owners := LinkOwners(Fan(groups, g, n), q, KeySet(IdKeys(ManyNodes(n))));
            |owners| == n && forall i: nat | i < n :: owners[i] == Some(i)
  {
    var joins, ids, core := OneGroup(g, n), KeySet(IdKeys(ManyNodes(n))), Traverse(Unlimited(q));
    forall i | 0 <= i < n ensures i in ids { ManyIds(n, i); }
    FanJoined(joins, 0, groups.rows, g, ids, core.predicates);
    FanSorted(core.order, JoinRows(joins, groups.rows, ids, core.predicates), g);
  }

  lemma FanDoesNotFit(keys: seq<Option<int>>, limit: Option<nat>, offset: Option<nat>)
    requires Bounded(limit) || Skip(offset) > 0
    requires |keys| == (if Skip(offset) > 0 then Skip(offset) + 1 else limit.value + 1)
    requires forall i: nat | i < |keys| :: keys[i] == Some(i)
    ensures !Fits(keys, limit, offset)
  {
    assert keys[0] == Some(0) && keys[1] == Some(1);
  }

  lemma AgreeingGroups(db: Store, q: Core, base: seq<Row>, i: nat)
    requires db.Valid() && GroupLinks(db, q, base).Ok? && i < |base|
    requires GroupsOf(GroupLinks(db, q, base).value, IdOf(base[i])) == OwnGroups(db, q, base[i])
    ensures SameGroups(false, Items(GroupsOf(GroupLinks(db, q, base).value, IdOf(base[i]))),
                       Items(OwnGroups(db, q, base[i])))
  {
    var own := ScanLinks(LinkRows(db, Traverse(q), {IdOf(base[i])}), IdColumns(q.fields, db.groups.columns));
    forall j, l | 0 <= j < l < |Members(own)| ensures IdOf(Members(own)[j]) != IdOf(Members(own)[l]) {
      MembersDistinct(own, j, l);
    }
  }

  lemma MisfitDisagrees(db: Store, q: Core, base: seq<Row>)
    requires db.Valid() && GroupLinks(db, q, base).Ok? && PairsDistinct(db.accountGroups.rows)
    requires !Fits(LinkOwners(db, q, KeySet(IdKeys(base))), q.limit, q.offset)
    ensures !OrderAgrees(db, q, base)
  {
    GroupsIff(db, q, base);
    if OrderAgrees(db, q, base) {
      forall i: nat | i < |base|
        ensures SameGroups(false, Items(GroupsOf(GroupLinks(db, q, base).value, IdOf(base[i]))),
                           Items(OwnGroups(db, q, base[i])))
      {
        AgreeingGroups(db, q, base, i);
      }
    }
  }

  /** A group that passes, linked to enough accounts, breaks every window. */
  lemma WindowBreaksGroups(groups: Table, q: Core, g: Row) returns (db: Store, base: seq<Row>)
    requires PrimaryKey(groups.rows) && IdFirst(groups.columns) && Prepare(q, groups.columns).Ok?
    requires (Bounded(q.limit) || Skip(q.offset) > 0) && g in groups.rows && HoldsAll(Traverse(q).predicates, g)
    ensures db.Valid() && db.groups == groups && !OrderAgrees(db, q, base)
  {
    var n := if Skip(q.offset) > 0 then Skip(q.offset) + 1 else q.limit.value + 1;
    db, base := Fan(groups, g, n), ManyNodes(n);
    FanValid(groups, g, n);
    FanOwners(groups, g, n, q);
    FanDoesNotFit(LinkOwners(db, q, KeySet(IdKeys(base))), q.limit, q.offset);
    MisfitDisagrees(db, q, base);
  }

  ghost predicate SomePasses(groups: seq<Row>, q: Core) {
    exists g :: g in groups && HoldsAll(Traverse(q).predicates, g)
  }

  lemma {:induction false} NoneJoined(joins: seq<Row>, groups: seq<Row>, ids: set<int>, ps: seq<Pred>)
    requires forall g | g in groups :: !HoldsAll(ps, g)
    ensures JoinRows(joins, groups, ids, ps) == []
  {
    if joins != [] {
      NoneJoined(joins[1..], groups, ids, ps);
    }
  }

  /** If no group passes there is nothing to put in order. */
  lemma NonePassesAgrees(db: Store, q: Core, base: seq<Row>)
    requires !SomePasses(db.groups.rows, q)
    ensures OrderAgrees(db, q, base)
  {
    if GroupLinks(db, q, base).Ok? {
      NoneJoined(db.accountGroups.rows, db.groups.rows, KeySet(IdKeys(base)), Traverse(q).predicates);
      forall i | 0 <= i < |base|
        ensures GroupsOf(GroupLinks(db, q, base).value, IdOf(base[i])) == OwnGroups(db, q, base[i])
      {
        NoneJoined(db.accountGroups.rows, db.groups.rows, {IdOf(base[i])}, Traverse(q).predicates);
      }
    }
  }

  /** For a groups table and an accepted sub-query: over every account_groups table and every batch
      each account has its groups in the order of its own query, if and only if no group passes the
      predicates, or there is no window and the order terms separate every two groups that pass. */
  lemma GroupOrderIff(groups: Table, q: Core)
    requires PrimaryKey(groups.rows) && IdFirst(groups.columns) && Prepare(q, groups.columns).Ok?
    ensures (forall db: Store, base: seq<Row> | db.Valid() && db.groups == groups :: OrderAgrees(db, q, base)) <==>
              !SomePasses(groups.rows, q) || (Unwindowed(q) && Separates(groups.rows, q))
  {
    if !SomePasses(groups.rows, q) {
      forall db: Store, base: seq<Row> | db.Valid() && db.groups == groups ensures OrderAgrees(db, q, base) {
        NonePassesAgrees(db, q, base);
      }
    } else if !Unwindowed(q) {
      var g :| g in groups.rows && HoldsAll(Traverse(q).predicates, g);
      var db, base := WindowBreaksGroups(groups, q, g);
    } else if Separates(groups.rows, q) {
      forall db: Store, base: seq<Row> | db.Valid() && db.groups == groups ensures OrderAgrees(db, q, base) {
        SeparatedAgrees(db, q, base);
      }
    } else {
      var db := TieBreaksOrder(groups, q);
    }
  }

  function Sample(id: int): Row {
    map[ID := Int(id)]
  }

  lemma SampleTable(g: Row, h: Row)
    requires g == Sample(10) && h == Sample(20)
    ensures PrimaryKey([g, h]) && g in [g, h] && h in [g, h] && g != h
    ensures Scan(g, [ID]) == g && Scan(h, [ID]) == h
  {
    assert IdOf(g) == 10 && IdOf(h) == 20;
  }

  lemma NoTerms(g: Row, h: Row)
    ensures Tied(EmptyCore.order, g, h) && HoldsAll(Traverse(EmptyCore).predicates, g) && Unwindowed(EmptyCore)
  {
  }

  /** For instance, without order terms: join rows (2, h), (1, g), (1, h) list account 1's groups as
      [h, g] in the batch and as [g, h] alone. */
  lemma OrderWitness(g: Row, h: Row, db: Store)
    requires g == Sample(10) && h == Sample(20) && db == Crossed(Table([ID], [g, h]), g, h)
    ensures db.Valid() && GroupLinks(db, EmptyCore, TwoNodes()).Ok?
    ensures GroupsOf(GroupLinks(db, EmptyCore, TwoNodes()).value, 1) == [h, g]
    ensures OwnGroups(db, EmptyCore, TwoNodes()[0]) == [g, h]
  {
    SampleTable(g, h);
    CrossedValid(Table([ID], [g, h]), g, h);
    NoTerms(g, h);
    NoTerms(h, g);
    CrossedDiffers(db, g, h, EmptyCore, [ID]);
  }
}
