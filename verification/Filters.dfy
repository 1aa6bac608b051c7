/** Which rows a load returns: those that pass every predicate of the caller and every predicate that
    an interceptor adds, spelled out on the base query and on each edge. */
module Filters {
  import opened Schema
  import opened Store
  import opened QueryFacts
  import opened EagerSpec
  import opened PerNodeSpec
  import opened Batches
  import opened Links
  import opened PerNode
  import opened EdgeFacts
  import opened GroupOrder

  // ---------------------------------------------------------------- what is asked of a row

  ghost predicate Satisfies(p: Pred, r: Row) {
    match p
    case Test(test) => test(r)
    case ColumnIn(c, keys) => c in r && r[c].Int? && r[c].i in keys
  }

  /** The row passes every predicate of the builder and of every traverser among its interceptors,
      such as the one that asks for deleted_at IS NULL. */
  ghost predicate Asked(core: Core, r: Row) {
    && (forall i | 0 <= i < |core.predicates| :: Satisfies(core.predicates[i], r))
    && (forall i | 0 <= i < |core.inters| && core.inters[i].Traverser? :: Satisfies(core.inters[i].pred, r))
  }

  lemma SatisfiesIs(p: Pred, r: Row)
    ensures Satisfies(p, r) <==> Holds(p, r)
  {
  }

  lemma {:induction false} TraversedIs(inters: seq<Interceptor>, r: Row)
    ensures HoldsAll(Traversed(inters), r) <==>
              forall i | 0 <= i < |inters| && inters[i].Traverser? :: Satisfies(inters[i].pred, r)
  {
    if inters != [] {
      TraversedIs(inters[1..], r);
      var first := if inters[0].Traverser? then [inters[0].pred] else [];
      HoldsBoth(first, Traversed(inters[1..]), r);
      if inters[0].Traverser? {
        SatisfiesIs(inters[0].pred, r);
        assert HoldsAll(first, r) <==> Holds(first[0], r);
      }
      assert forall i | 1 <= i < |inters| :: inters[i] == inters[1..][i - 1];
    }
  }

  lemma AskedIs(core: Core, r: Row)
    ensures Asked(core, r) <==> PassesFilter(core, r)
  {
    HoldsBoth(core.predicates, Traversed(core.inters), r);
    TraversedIs(core.inters, r);
    forall i | 0 <= i < |core.predicates| ensures Satisfies(core.predicates[i], r) <==> Holds(core.predicates[i], r) {
      SatisfiesIs(core.predicates[i], r);
    }
  }

  /** What prepareQuery has added when it ends, with or without an error: the predicates of the
      traversers that no uninitialised interceptor precedes. */
  lemma {:induction false} ReachedIs(inters: seq<Interceptor>, n: nat, r: Row)
    requires n <= |inters|
    ensures HoldsAll(Reached(inters, n), r) <==>
              forall i | n <= i < |inters| && inters[i].Traverser? && Uninitialized !in inters[n..i] ::
                Satisfies(inters[i].pred, r)
    decreases |inters| - n
  {
    if n < |inters| {
      ReachedIs(inters, n + 1, r);
      forall i | n < i <= |inters| ensures inters[n..i] == [inters[n]] + inters[n + 1..i] {
      }
      if !inters[n].Uninitialized? {
        ReachedStep(inters, n, r);
      } else {
        assert forall i | n < i < |inters| :: inters[n..i][0] == Uninitialized;
      }
    }
  }

  lemma ReachedStep(inters: seq<Interceptor>, n: nat, r: Row)
    requires n < |inters| && !inters[n].Uninitialized?
    ensures HoldsAll(Reached(inters, n), r) <==>
              (inters[n].Traverser? ==> Satisfies(inters[n].pred, r)) && HoldsAll(Reached(inters, n + 1), r)
  {
    var first := if inters[n].Traverser? then [inters[n].pred] else [];
    HoldsBoth(first, Reached(inters, n + 1), r);
    if inters[n].Traverser? {
      SatisfiesIs(inters[n].pred, r);
      assert HoldsAll(first, r) <==> Holds(first[0], r);
    }
  }

  // ---------------------------------------------------------------- the accounts returned

  /** Every returned account is the scan of a row of which everything asked holds. */
  lemma ReturnedIsAsked(db: Store, q: Request, core: Core, i: nat) returns (r: Row)
    requires db.Valid() && Run(db, q, core).Ok? && i < |Run(db, q, core).value|
    ensures r in db.accounts.rows && Asked(core, r) && KeyOf(r, ID) == Some(IdOf(Run(db, q, core).value[i].fields))
    ensures Run(db, q, core).value[i].fields == Scan(r, AccountSelection(core, q.with.Keys, db.accounts.columns))
  {
    r := EntityRow(db, q, core, i);
    AskedIs(core, r);
  }

  /** Without a window every such row is returned. */
  lemma AskedIsReturned(db: Store, q: Request, core: Core, r: Row) returns (i: nat)
    requires db.Valid() && Run(db, q, core).Ok? && (core.limit.None? || core.limit.value == 0)
    requires (core.offset.None? || core.offset.value == 0) && r in db.accounts.rows && Asked(core, r)
    ensures i < |Run(db, q, core).value|
    ensures Run(db, q, core).value[i].fields == Scan(r, AccountSelection(core, q.with.Keys, db.accounts.columns))
  {
    AskedIs(core, r);
    FetchComplete(db.accounts.rows, Traverse(core), r);
    RunRows(db, q, core);
    i :| 0 <= i < |Fetch(db.accounts.rows, Traverse(core))| && Fetch(db.accounts.rows, Traverse(core))[i] == r;
    assert FieldsOf(Run(db, q, core).value)[i] == Base(db, Traverse(core), q.with.Keys)[i];
  }

  /** No account is returned twice. */
  lemma ReturnedOnce(db: Store, q: Request, core: Core, i: nat, j: nat)
    requires db.Valid() && Run(db, q, core).Ok? && i < j < |Run(db, q, core).value|
    ensures IdOf(Run(db, q, core).value[i].fields) != IdOf(Run(db, q, core).value[j].fields)
  {
    var rows, columns := Fetch(db.accounts.rows, Traverse(core)), AccountSelection(core, q.with.Keys,
        db.accounts.columns);
    RunRows(db, q, core);
    FetchKeys(db.accounts.rows, Traverse(core));
    var base := Base(db, Traverse(core), q.with.Keys);
    assert FieldsOf(Run(db, q, core).value)[i] == base[i] && FieldsOf(Run(db, q, core).value)[j] == base[j];
    assert base[i] == Scan(rows[i], columns) && base[j] == Scan(rows[j], columns);
    assert KeyOf(rows[i], ID).Some? && KeyOf(rows[j], ID).Some?;
  }

  // ---------------------------------------------------------------- to-one edges

  /** The loaded proxy refers to a row of which everything asked of proxies holds; without a window
      such a row is always loaded. */
  lemma ProxyIsAsked(db: Store, q: Request, core: Core, i: nat, r: Row)
    requires db.Valid() && Run(db, q, core).Ok? && i < |Run(db, q, core).value| && Proxy in q.with
    requires r in db.proxies.rows
    ensures var v, sub := Run(db, q, core).value[i], q.with[Proxy].core;
            && (v.proxy.Some? && IdOf(v.proxy.value) == IdOf(r) ==>
                  KeyOf(v.fields, ProxyID) == Some(IdOf(r)) && Asked(sub, r))
            && (Unwindowed(sub) && KeyOf(v.fields, ProxyID) == Some(IdOf(r)) && Asked(sub, r) ==>
                  v.proxy == Some(Scan(r, IdColumns(sub.fields, db.proxies.columns))))
  {
    var v, sub := Run(db, q, core).value[i], q.with[Proxy].core;
    var ks, fk := KeySet(Keys(BaseOf(db, q, core), ProxyID)), KeyOf(v.fields, ProxyID);
    var s := ViewProxy(db, q, core, i);
    KeyAsked(db, q, core, i, ProxyID);
    if s.Some? {
      AnswerPasses(db.proxies, sub, ID, ks, fk, s.value);
    }
    AskedIs(sub, r);
    if s.Some? && IdOf(v.proxy.value) == IdOf(r) {
      assert Answers(ProxiesReturned(db, q, core), fk, s.value);
      SamePrimaryKey(db.proxies.rows, s.value, r);
    }
    if Unwindowed(sub) {
      AnswersRefers(db.proxies, sub, ks, fk, r);
    }
  }

  /** A returned row is a row of the table of which everything asked holds. */
  lemma AnswerPasses(table: Table, sub: Core, c: Column, ks: set<int>, fk: Option<int>, r: Row)
    requires Answers(Returned(table, sub, c, ks), fk, r)
    ensures r in table.rows && PassesFilter(sub, r)
  {
    FetchedPasses(table, sub, c, ks, r);
  }

  lemma FetchedPasses(table: Table, sub: Core, c: Column, ks: set<int>, r: Row)
    requires r in Fetch(table.rows, Traverse(Where(sub, ColumnIn(c, ks))))
    ensures r in table.rows && PassesFilter(sub, r) && KeyOf(r, c).Some? && KeyOf(r, c).value in ks
  {
    var rows := Fetch(table.rows, Traverse(Where(sub, ColumnIn(c, ks))));
    var i :| 0 <= i < |rows| && rows[i] == r;
    FetchHolds(table.rows, Traverse(Where(sub, ColumnIn(c, ks))), i);
    WhereHolds(sub, c, ks, r);
    HoldsBoth(sub.predicates, Traversed(sub.inters), r);
  }

  /** The same for parents. */
  lemma ParentIsAsked(db: Store, q: Request, core: Core, i: nat, r: Row)
    requires db.Valid() && Run(db, q, core).Ok? && i < |Run(db, q, core).value| && Parent in q.with
    requires r in db.accounts.rows
    ensures var v, sub := Run(db, q, core).value[i], q.with[Parent].core;
            && (v.parent.Some? && IdOf(v.parent.value.fields) == IdOf(r) ==>
                  KeyOf(v.fields, ParentAccountID) == Some(IdOf(r)) && Asked(sub, r))
            && (Unwindowed(sub) && KeyOf(v.fields, ParentAccountID) == Some(IdOf(r)) && Asked(sub, r) ==>
                  v.parent.Some? && IdOf(v.parent.value.fields) == IdOf(r))
  {
    var v, sub := Run(db, q, core).value[i], q.with[Parent].core;
    var ks, fk := KeySet(Keys(BaseOf(db, q, core), ParentAccountID)), KeyOf(v.fields, ParentAccountID);
    var s := ViewParent(db, q, core, i);
    if s.Some? {
      assert Answers(ParentsReturned(db, q, core), fk, s.value);
      AnswerPasses(db.accounts, sub, ID, ks, fk, s.value);
      if IdOf(v.parent.value.fields) == IdOf(r) {
        SamePrimaryKey(db.accounts.rows, s.value, r);
      }
    }
    AskedIs(sub, r);
    if Unwindowed(sub) {
      ParentListed(db, q, core, i, r);
    }
  }

  // ---------------------------------------------------------------- to-many edges

  /** The same for children. */
  lemma ChildIsAsked(db: Store, q: Request, core: Core, i: nat, r: Row)
    requires db.Valid() && Run(db, q, core).Ok? && i < |Run(db, q, core).value| && Children in q.with
    requires r in db.accounts.rows
    ensures var v, sub := Run(db, q, core).value[i], q.with[Children].core;
            && (HasChild(v, IdOf(r)) ==> KeyOf(r, ParentAccountID) == Some(IdOf(v.fields)) && Asked(sub, r))
            && (Unwindowed(sub) && KeyOf(r, ParentAccountID) == Some(IdOf(v.fields)) && Asked(sub, r) ==>
                  HasChild(v, IdOf(r)))
  {
    var v, sub := Run(db, q, core).value[i], q.with[Children].core;
    AskedIs(sub, r);
    ViewChildren(db, q, core, i, IdOf(r));
    if HasChild(v, IdOf(r)) {
      var s :| ChildRow(ChildrenReturned(db, q, core), s, IdOf(v.fields)) && KeyOf(s, ID) == Some(IdOf(r));
      FetchedPasses(db.accounts, WithField(sub, ParentAccountID), ParentAccountID,
                    KeySet(IdKeys(BaseOf(db, q, core))), s);
      SamePrimaryKey(db.accounts.rows, s, r);
    }
    if Unwindowed(sub) {
      ChildListed(db, q, core, i, r);
    }
  }

  /** Entity x is the scan of a row that carries the node's ID and of which everything asked holds. */
  ghost predicate OwnedRow(rows: seq<Row>, columns: seq<Column>, sub: Core, id: int, x: Row) {
    exists r :: r in rows && KeyOf(r, AccountID) == Some(id) && Asked(sub, r) && x == Scan(r, columns)
  }

  lemma OwnedIsAsked(table: Table, sub: Core, ks: set<int>, columns: seq<Column>, id: int, x: Row)
    requires AccountID in columns && id in ks
    ensures var owned := OwnedRows(ScanRows(Fetch(table.rows, Traverse(Where(sub, ColumnIn(AccountID, ks)))), columns),
                                   id);
            && (x in owned ==> OwnedRow(table.rows, columns, sub, id, x))
            && (Unwindowed(sub) && OwnedRow(table.rows, columns, sub, id, x) ==> x in owned)
  {
    var core := Traverse(Where(sub, ColumnIn(AccountID, ks)));
    var rows := Fetch(table.rows, core);
    var scanned := ScanRows(rows, columns);
    var keys := Fks(scanned, AccountID);
    HitsExact(keys, |keys|, id);
    forall j | 0 <= j < |rows| ensures KeyOf(rows[j], AccountID).Some? && keys[j] == KeyOf(rows[j], AccountID) {
      FetchedPasses(table, sub, AccountID, ks, rows[j]);
    }
    if x in OwnedRows(scanned, id) {
      var m :| 0 <= m < |Hits(keys, id)| && scanned[Hits(keys, id)[m]] == x;
      var j := Hits(keys, id)[m];
      assert j in Hits(keys, id);
      FetchedPasses(table, sub, AccountID, ks, rows[j]);
      AskedIs(sub, rows[j]);
      assert x == Scan(rows[j], columns);
    }
    if Unwindowed(sub) && OwnedRow(table.rows, columns, sub, id, x) {
      var r :| r in table.rows && KeyOf(r, AccountID) == Some(id) && Asked(sub, r) && x == Scan(r, columns);
      OwnedComes(table, sub, ks, columns, id, r);
    }
  }

  lemma OwnedComes(table: Table, sub: Core, ks: set<int>, columns: seq<Column>, id: int, r: Row)
    requires AccountID in columns && id in ks && Unwindowed(sub)
    requires r in table.rows && KeyOf(r, AccountID) == Some(id) && Asked(sub, r)
    ensures Scan(r, columns) in
              OwnedRows(ScanRows(Fetch(table.rows, Traverse(Where(sub, ColumnIn(AccountID, ks)))), columns), id)
  {
    var core := Traverse(Where(sub, ColumnIn(AccountID, ks)));
    var rows := Fetch(table.rows, core);
    var scanned := ScanRows(rows, columns);
    var keys := Fks(scanned, AccountID);
    AskedIs(sub, r);
    WhereHolds(sub, AccountID, ks, r);
    HoldsBoth(sub.predicates, Traversed(sub.inters), r);
    FetchComplete(table.rows, core, r);
    var j :| 0 <= j < |rows| && rows[j] == r;
    assert scanned[j] == Scan(r, columns);
    assert KeyOf(Scan(r, columns), AccountID) == Some(id);
    HitsExact(keys, |keys|, id);
    assert j in Hits(keys, id);
    var m :| 0 <= m < |Hits(keys, id)| && Hits(keys, id)[m] == j;
    assert OwnedRows(scanned, id)[m] == scanned[j];
  }

  /** The sub-query sees the same filter with the foreign key in its selection. */
  lemma FieldKeepsFilter(sub: Core, c: Column, r: Row)
    ensures Asked(WithField(sub, c), r) <==> Asked(sub, r)
  {
  }

  /** The usage logs of a loaded node. */
  lemma LogIsAsked(db: Store, q: Request, core: Core, i: nat, x: Row)
    requires db.Valid() && Run(db, q, core).Ok? && i < |Run(db, q, core).value| && UsageLogs in q.with
    ensures var v, sub := Run(db, q, core).value[i], q.with[UsageLogs].core;
            var columns := IdColumns(WithField(sub, AccountID).fields, db.usageLogs.columns);
            && v.usageLogs.Items?
            && (x in v.usageLogs.items ==> OwnedRow(db.usageLogs.rows, columns, sub, IdOf(v.fields), x))
            && (Unwindowed(sub) && OwnedRow(db.usageLogs.rows, columns, sub, IdOf(v.fields), x) ==>
                  x in v.usageLogs.items)
  {
    var base, sub := BaseOf(db, q, core), q.with[UsageLogs].core;
    var columns := IdColumns(WithField(sub, AccountID).fields, db.usageLogs.columns);
    var nb := ResultJoin(db, q, core, i);
    GatherParts(db, q, base, nb);
    InIds(base, i);
    OwnedIsAsked(db.usageLogs, WithField(sub, AccountID), KeySet(IdKeys(base)), columns, IdOf(base[i]), x);
    SameOwnedRow(db.usageLogs.rows, columns, sub, IdOf(base[i]), x);
  }

  lemma SameOwnedRow(rows: seq<Row>, columns: seq<Column>, sub: Core, id: int, x: Row)
    ensures OwnedRow(rows, columns, WithField(sub, AccountID), id, x) <==> OwnedRow(rows, columns, sub, id, x)
  {
    forall r ensures Asked(WithField(sub, AccountID), r) <==> Asked(sub, r) {
      FieldKeepsFilter(sub, AccountID, r);
    }
  }

  /** The account groups of a loaded node. */
  lemma AccountGroupIsAsked(db: Store, q: Request, core: Core, i: nat, x: Row)
    requires db.Valid() && Run(db, q, core).Ok? && i < |Run(db, q, core).value| && AccountGroups in q.with
    ensures var v, sub := Run(db, q, core).value[i], q.with[AccountGroups].core;
            var columns := PlainColumns(WithField(sub, AccountID).fields, db.accountGroups.columns);
            && v.accountGroups.Items?
            && (x in v.accountGroups.items ==> OwnedRow(db.accountGroups.rows, columns, sub, IdOf(v.fields), x))
            && (Unwindowed(sub) && OwnedRow(db.accountGroups.rows, columns, sub, IdOf(v.fields), x) ==>
                  x in v.accountGroups.items)
  {
    var base, sub := BaseOf(db, q, core), q.with[AccountGroups].core;
    var columns := PlainColumns(WithField(sub, AccountID).fields, db.accountGroups.columns);
    var nb := ResultJoin(db, q, core, i);
    GatherParts(db, q, base, nb);
    InIds(base, i);
    OwnedIsAsked(db.accountGroups, WithField(sub, AccountID), KeySet(IdKeys(base)), columns, IdOf(base[i]), x);
    SameOwnedRow(db.accountGroups.rows, columns, sub, IdOf(base[i]), x);
  }

  // ---------------------------------------------------------------- groups

  /** An account_groups row joins the account with the group. */
  ghost predicate JoinedBy(joins: seq<Row>, account: int, group: int) {
    exists j :: j in joins && KeyOf(j, AccountID) == Some(account) && KeyOf(j, GroupID) == Some(group)
  }

  lemma {:induction false} JoinPassed(joins: seq<Row>, groups: seq<Row>, ids: set<int>, ps: seq<Pred>, l: Link)
    requires l in JoinRows(joins, groups, ids, ps)
    ensures l.group in groups && HoldsAll(ps, l.group) && l.account in ids
  {
    JoinCons(joins, groups, ids, ps);
    var first := FirstLink(joins, groups, ids, ps);
    if first == Some(l) {
      LastExact(Keys(groups, ID), |groups|, KeyOf(joins[0], GroupID));
    } else {
      JoinPassed(joins[1..], groups, ids, ps, l);
    }
  }

  lemma {:induction false} JoinComplete(joins: seq<Row>, groups: seq<Row>, ids: set<int>, ps: seq<Pred>, j: Row, g: Row,
                                        a: int)
    requires j in joins && KeyOf(j, AccountID) == Some(a) && KeyOf(j, GroupID) == Some(IdOf(g)) && a in ids
    requires PrimaryKey(groups) && g in groups && HoldsAll(ps, g)
    ensures Link(a, g) in JoinRows(joins, groups, ids, ps)
  {
    JoinCons(joins, groups, ids, ps);
    if joins[0] == j {
      GroupFound(groups, g);
      assert FirstLink(joins, groups, ids, ps) == Some(Link(a, g));
    } else {
      JoinComplete(joins[1..], groups, ids, ps, j, g, a);
    }
  }

  /** Entity x is the scan of a group joined with the node, of which everything asked holds. */
  ghost predicate JoinedGroup(db: Store, columns: seq<Column>, sub: Core, id: int, x: Row) {
    exists g :: g in db.groups.rows && JoinedBy(db.accountGroups.rows, id, IdOf(g)) && Asked(sub, g)
                && x == Scan(g, columns)
  }

  lemma LinkIsAsked(db: Store, sub: Core, ids: set<int>, l: Link)
    requires l in LinkRows(db, Traverse(sub), ids)
    ensures l.group in db.groups.rows && Asked(sub, l.group)
    ensures JoinedBy(db.accountGroups.rows, l.account, IdOf(l.group))
  {
    var joins, ps := db.accountGroups.rows, Traverse(sub).predicates;
    var joined := JoinRows(joins, db.groups.rows, ids, ps);
    assert l in SortLinks(sub.order, joined);
    SortLinkMembers(sub.order, joined, l);
    JoinPassed(joins, db.groups.rows, ids, ps, l);
    JoinFrom(joins, db.groups.rows, ids, ps, l);
    AskedIs(sub, l.group);
  }

  lemma AskedIsLinked(db: Store, sub: Core, ids: set<int>, a: int, g: Row)
    requires db.Valid() && Unwindowed(sub) && a in ids && g in db.groups.rows && Asked(sub, g)
    requires JoinedBy(db.accountGroups.rows, a, IdOf(g))
    ensures Link(a, g) in LinkRows(db, Traverse(sub), ids)
  {
    var joins, ps := db.accountGroups.rows, Traverse(sub).predicates;
    var j :| j in joins && KeyOf(j, AccountID) == Some(a) && KeyOf(j, GroupID) == Some(IdOf(g));
    AskedIs(sub, g);
    JoinComplete(joins, db.groups.rows, ids, ps, j, g, a);
    SortLinkMembers(sub.order, JoinRows(joins, db.groups.rows, ids, ps), Link(a, g));
  }

  /** The groups of a loaded node. */
  lemma GroupIsAsked(db: Store, q: Request, core: Core, i: nat, x: Row)
    requires db.Valid() && Run(db, q, core).Ok? && i < |Run(db, q, core).value| && Groups in q.with
    ensures var v, sub := Run(db, q, core).value[i], q.with[Groups].core;
            var columns := IdColumns(sub.fields, db.groups.columns);
            && v.groups.Items?
            && (x in v.groups.items ==> JoinedGroup(db, columns, sub, IdOf(v.fields), x))
            && (Unwindowed(sub) && JoinedGroup(db, columns, sub, IdOf(v.fields), x) ==> x in v.groups.items)
  {
    var base, sub := BaseOf(db, q, core), q.with[Groups].core;
    var nb := ResultJoin(db, q, core, i);
    GatherParts(db, q, base, nb);
    InIds(base, i);
    GroupMember(db, sub, KeySet(IdKeys(base)), IdOf(base[i]), IdColumns(sub.fields, db.groups.columns), x);
  }

  lemma GroupMember(db: Store, sub: Core, ids: set<int>, id: int, columns: seq<Column>, x: Row)
    requires db.Valid() && id in ids && ID in columns
    ensures var groups := GroupsOf(ScanLinks(LinkRows(db, Traverse(sub), ids), columns), id);
            && (x in groups ==> JoinedGroup(db, columns, sub, id, x))
            && (Unwindowed(sub) && JoinedGroup(db, columns, sub, id, x) ==> x in groups)
  {
    var links := LinkRows(db, Traverse(sub), ids);
    BatchMember(db, Traverse(sub), ids, id, columns, x);
    if HasGroup(links, id, columns, x) {
      var l :| l in links && l.account == id && Scan(l.group, columns) == x;
      LinkIsAsked(db, sub, ids, l);
    }
    if Unwindowed(sub) && JoinedGroup(db, columns, sub, id, x) {
      var g :| g in db.groups.rows && JoinedBy(db.accountGroups.rows, id, IdOf(g)) && Asked(sub, g)
        && x == Scan(g, columns);
      AskedIsLinked(db, sub, ids, id, g);
      assert Link(id, g).account == id && Link(id, g).group == g;
    }
  }
}
