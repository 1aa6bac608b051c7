/** What the loaded edges of a result mean in terms of the table rows. */
module EdgeFacts {
  import opened Schema
  import opened Store
  import opened QueryFacts
  import opened EagerSpec
  import opened Entities
  import opened PerNodeSpec
  import opened Batches
  import opened PerNode

  // ---------------------------------------------------------------- where entities come from

  /** Row r passes the filter of a query: its own predicates and those of its interceptors. */
  ghost predicate PassesFilter(q: Core, r: Row) {
    HoldsAll(Traverse(q).predicates, r)
  }

  /** Entity i of a result is the scan of row i of the base query, and passed its filter. */
  lemma EntityRow(db: Store, q: Request, core: Core, i: nat) returns (r: Row)
    requires db.Valid() && Run(db, q, core).Ok? && i < |Run(db, q, core).value|
    ensures r in db.accounts.rows && KeyOf(r, ID) == Some(IdOf(Run(db, q, core).value[i].fields))
    ensures Run(db, q, core).value[i].fields == Scan(r, AccountSelection(core, q.with.Keys, db.accounts.columns))
    ensures PassesFilter(core, r)
  {
    var prepared := Prepare(core, db.accounts.columns).value;
    RunFields(db, q, core);
    FetchHolds(db.accounts.rows, prepared, i);
    FetchKeys(db.accounts.rows, prepared);
    r := Fetch(db.accounts.rows, prepared)[i];
    assert FieldsOf(Run(db, q, core).value)[i] == Scan(r, AccountSelection(core, q.with.Keys, db.accounts.columns));
  }

  /** A foreign key survives scanning when its edge was requested. */
  lemma EntityKey(db: Store, q: Request, core: Core, i: nat, r: Row, e: Edge, c: Column)
    requires db.Valid() && Run(db, q, core).Ok? && i < |Run(db, q, core).value|
    requires Run(db, q, core).value[i].fields == Scan(r, AccountSelection(core, q.with.Keys, db.accounts.columns))
    requires e in q.with && ((e == Proxy && c == ProxyID) || (e == Parent && c == ParentAccountID))
    ensures KeyOf(Run(db, q, core).value[i].fields, c) == KeyOf(r, c)
  {
  }

  lemma SamePrimaryKey(rows: seq<Row>, r: Row, s: Row)
    requires PrimaryKey(rows) && r in rows && s in rows && IdOf(r) == IdOf(s)
    ensures r == s
  {
    var i :| 0 <= i < |rows| && rows[i] == r;
    var j :| 0 <= j < |rows| && rows[j] == s;
  }

  // ---------------------------------------------------------------- what a sub-query returned

  /** The rows a sub-query returned for a set of keys, window included. */
  function Returned(table: Table, q: Core, c: Column, ks: set<int>): seq<Row> {
    Fetch(table.rows, Traverse(Where(q, ColumnIn(c, ks))))
  }

  /** Row r is among the returned rows and has the key. */
  ghost predicate Answers(rows: seq<Row>, key: Option<int>, r: Row) {
    r in rows && key.Some? && KeyOf(r, ID) == key
  }

  /** The row an M2O edge of a node refers to: it has the foreign key as ID and passes the
      sub-query's filter. */
  ghost predicate Refers(rows: seq<Row>, q: Core, fk: Option<int>, r: Row) {
    r in rows && fk.Some? && KeyOf(r, ID) == fk && PassesFilter(q, r)
  }

  /** Without a window the returned row with a key asked for is the row referred to. */
  lemma AnswersRefers(table: Table, q: Core, ks: set<int>, fk: Option<int>, r: Row)
    requires Unwindowed(q) && (fk.Some? ==> fk.value in ks)
    ensures Answers(Returned(table, q, ID, ks), fk, r) <==> Refers(table.rows, q, fk, r)
  {
    var core := Traverse(Where(q, ColumnIn(ID, ks)));
    FetchComplete(table.rows, core, r);
    WhereHolds(q, ID, ks, r);
    HoldsBoth(q.predicates, Traversed(q.inters), r);
  }

  /** The entry an M2O edge takes from scanned rows with distinct IDs. */
  lemma LastAnswers(rows: seq<Row>, columns: seq<Column>, fk: Option<int>) returns (r: Option<Row>)
    requires PrimaryKey(rows) && ID in columns
    ensures forall s :: Answers(rows, fk, s) <==> r == Some(s)
    ensures var scanned := ScanRows(rows, columns);
            At(scanned, LastHit(IdKeys(scanned), fk)) == if r.Some? then Some(Scan(r.value, columns)) else None
  {
    var keys := IdKeys(ScanRows(rows, columns));
    LastExact(keys, |keys|, fk);
    var j := LastHit(keys, fk);
    assert forall i | 0 <= i < |rows| :: keys[i] == KeyOf(rows[i], ID);
    r := if j >= 0 then Some(rows[j]) else None;
    forall s ensures Answers(rows, fk, s) <==> r == Some(s) {
      if Answers(rows, fk, s) {
        var i :| 0 <= i < |rows| && rows[i] == s;
        assert keys[i] == fk;
      }
    }
  }

  // ---------------------------------------------------------------- the edges of a result

  /** The base rows of a load. */
  function BaseOf(db: Store, q: Request, core: Core): seq<Row> {
    Base(db, Traverse(core), q.with.Keys)
  }

  lemma ResultJoin(db: Store, q: Request, core: Core, i: nat) returns (nb: Neighbours)
    requires Run(db, q, core).Ok? && i < |Run(db, q, core).value|
    ensures i < |BaseOf(db, q, core)| && Gather(db, q, BaseOf(db, q, core)) == Ok(nb)
    ensures Run(db, q, core).value[i] == Join(q.with.Keys, BaseOf(db, q, core)[i], nb)
  {
    RunRows(db, q, core);
    nb := RunJoins(db, q, core);
  }

  /** What the proxy sub-query of a load returned. */
  function ProxiesReturned(db: Store, q: Request, core: Core): seq<Row>
    requires Proxy in q.with
  {
    Returned(db.proxies, q.with[Proxy].core, ID, KeySet(Keys(BaseOf(db, q, core), ProxyID)))
  }

  function ParentsReturned(db: Store, q: Request, core: Core): seq<Row>
    requires Parent in q.with
  {
    Returned(db.accounts, q.with[Parent].core, ID, KeySet(Keys(BaseOf(db, q, core), ParentAccountID)))
  }

  lemma ProxyRowsAre(db: Store, q: Core, base: seq<Row>)
    requires ProxyRows(db, q, base).Ok?
    ensures ProxyRows(db, q, base).value ==
              ScanRows(Returned(db.proxies, q, ID, KeySet(Keys(base, ProxyID))),
                       IdColumns(q.fields, db.proxies.columns))
  {
    if KeySet(Keys(base, ProxyID)) == {} {
      NoKeysNoRows(db.proxies.rows, q, ID);
    }
  }

  /** The proxy of a loaded node: the returned row with its key. */
  lemma ViewProxy(db: Store, q: Request, core: Core, i: nat) returns (r: Option<Row>)
    requires db.Valid() && Run(db, q, core).Ok? && i < |Run(db, q, core).value| && Proxy in q.with
    ensures var v := Run(db, q, core).value[i];
            && (forall s :: Answers(ProxiesReturned(db, q, core), KeyOf(v.fields, ProxyID), s) <==> r == Some(s))
            && v.proxy == if r.Some? then Some(Scan(r.value,
                                                    IdColumns(q.with[Proxy].core.fields, db.proxies.columns))) else None
  {
    var base, sub := BaseOf(db, q, core), q.with[Proxy].core;
    var nb := ResultJoin(db, q, core, i);
    GatherParts(db, q, base, nb);
    ProxyRowsAre(db, sub, base);
    FetchKeys(db.proxies.rows, Traverse(Where(sub, ColumnIn(ID, KeySet(Keys(base, ProxyID))))));
    r := LastAnswers(ProxiesReturned(db, q, core), IdColumns(sub.fields, db.proxies.columns), KeyOf(base[i], ProxyID));
  }

  lemma ParentRowsAre(db: Store, p: Request, base: seq<Row>)
    requires ParentViews(db, p, base).Ok?
    ensures FieldsOf(ParentViews(db, p, base).value) ==
              ScanRows(Returned(db.accounts, p.core, ID, KeySet(Keys(base, ParentAccountID))),
                       AccountSelection(p.core, p.with.Keys, db.accounts.columns))
  {
    var fks := KeySet(Keys(base, ParentAccountID));
    if fks == {} {
      NoKeysNoRows(db.accounts.rows, p.core, ID);
    } else {
      RunRows(db, p, Where(p.core, ColumnIn(ID, fks)));
      BaseIsLeaf(db, p.core, ColumnIn(ID, fks), p.with.Keys);
    }
  }

  lemma ParentFields(vs: seq<View>, rows: seq<Row>, f: Row)
    requires FieldsOf(vs) == rows
    ensures var r := At(rows, LastHit(IdKeys(rows), KeyOf(f, ParentAccountID)));
            && (ParentOf(vs, f).Some? <==> r.Some?)
            && (r.Some? ==> ParentOf(vs, f).value.fields == r.value)
  {
  }

  /** The parent of a loaded node: the returned row with its key. */
  lemma ViewParent(db: Store, q: Request, core: Core, i: nat) returns (r: Option<Row>)
    requires db.Valid() && Run(db, q, core).Ok? && i < |Run(db, q, core).value| && Parent in q.with
    ensures var v, p := Run(db, q, core).value[i], q.with[Parent];
            && (forall s ::
                 Answers(ParentsReturned(db, q, core), KeyOf(v.fields, ParentAccountID), s) <==> r == Some(s))
            && (v.parent.Some? <==> r.Some?)
            && (r.Some? ==>
                 v.parent.value.fields == Scan(r.value, AccountSelection(p.core, p.with.Keys, db.accounts.columns)))
  {
    var base, p := BaseOf(db, q, core), q.with[Parent];
    var nb := ResultJoin(db, q, core, i);
    GatherParts(db, q, base, nb);
    ParentRowsAre(db, p, base);
    FetchKeys(db.accounts.rows, Traverse(Where(p.core, ColumnIn(ID, KeySet(Keys(base, ParentAccountID))))));
    var columns := AccountSelection(p.core, p.with.Keys, db.accounts.columns);
    r := LastAnswers(ParentsReturned(db, q, core), columns, KeyOf(base[i], ParentAccountID));
    ParentFields(nb.parents, ScanRows(ParentsReturned(db, q, core), columns), base[i]);
  }

  // ---------------------------------------------------------------- OrErr accessors

  lemma ResultShape(db: Store, q: Request, core: Core, i: nat)
    requires Run(db, q, core).Ok? && i < |Run(db, q, core).value|
    ensures var v := Run(db, q, core).value[i];
            && v.loaded == LoadedTypes(q.with.Keys)
            && (Proxy !in q.with ==> v.proxy.None?) && (Parent !in q.with ==> v.parent.None?)
  {
    var nb := ResultJoin(db, q, core, i);
  }

  lemma ProxyAccessor(v: View, edges: set<Edge>, a: Account, R: set<Account>)
    requires Shows(a, v, R) && v.loaded == LoadedTypes(edges) && (Proxy !in edges ==> v.proxy.None?)
    ensures |a.edges.loadedTypes| == 6 && a.fields == v.fields
    ensures ProxyOrErr(a.edges).NotLoaded? <==> Proxy !in edges
    ensures ProxyOrErr(a.edges).Found? <==> v.proxy.Some?
    ensures v.proxy.Some? ==> ProxyOrErr(a.edges).value.fields == v.proxy.value
  {
  }

  lemma ParentAccessor(v: View, edges: set<Edge>, a: Account, R: set<Account>)
    requires Shows(a, v, R) && v.loaded == LoadedTypes(edges) && (Parent !in edges ==> v.parent.None?)
    ensures |a.edges.loadedTypes| == 6 && a.fields == v.fields
    ensures ParentOrErr(a.edges).NotLoaded? <==> Parent !in edges
    ensures ParentOrErr(a.edges).Found? <==> v.parent.Some?
    ensures v.parent.Some? ==> ParentOrErr(a.edges).value.fields == v.parent.value.fields
  {
  }

  /** The list accessors after any successful load: a list, possibly empty, if the edge was requested,
      and not-loaded, with a nil slot, if it was not. */
  lemma ListsOrErrExact(db: Store, q: Request, core: Core, i: nat, a: Account, R: set<Account>)
    requires Run(db, q, core).Ok? && i < |Run(db, q, core).value|
    requires Shows(a, Run(db, q, core).value[i], R)
    ensures |a.edges.loadedTypes| == 6
    ensures GroupsOrErr(a.edges) == if Groups in q.with then Found(a.edges.groups) else NotLoaded
    ensures a.edges.groups.Items? <==> Groups in q.with
    ensures ChildrenOrErr(a.edges) == if Children in q.with then Found(a.edges.children) else NotLoaded
    ensures a.edges.children.Items? <==> Children in q.with
    ensures UsageLogsOrErr(a.edges) == if UsageLogs in q.with then Found(a.edges.usageLogs) else NotLoaded
    ensures a.edges.usageLogs.Items? <==> UsageLogs in q.with
    ensures AccountGroupsOrErr(a.edges) == if AccountGroups in q.with then Found(a.edges.accountGroups) else NotLoaded
    ensures a.edges.accountGroups.Items? <==> AccountGroups in q.with
  {
    var nb := ResultJoin(db, q, core, i);
    JoinShape(q.with.Keys, BaseOf(db, q, core)[i], nb);
    ListAccessors(Run(db, q, core).value[i], q.with.Keys, a, R);
  }

  lemma JoinShape(edges: set<Edge>, f: Row, nb: Neighbours)
    ensures var v := Join(edges, f, nb);
            && v.loaded == LoadedTypes(edges) && (v.groups.Items? <==> Groups in edges)
            && (v.children.Items? <==> Children in edges) && (v.usageLogs.Items? <==> UsageLogs in edges)
            && (v.accountGroups.Items? <==> AccountGroups in edges)
  {
  }

  lemma ListAccessors(v: View, edges: set<Edge>, a: Account, R: set<Account>)
    requires Shows(a, v, R) && v.loaded == LoadedTypes(edges)
    ensures |a.edges.loadedTypes| == 6
    ensures GroupsOrErr(a.edges) == if Groups in edges then Found(a.edges.groups) else NotLoaded
    ensures ChildrenOrErr(a.edges) == if Children in edges then Found(a.edges.children) else NotLoaded
    ensures UsageLogsOrErr(a.edges) == if UsageLogs in edges then Found(a.edges.usageLogs) else NotLoaded
    ensures AccountGroupsOrErr(a.edges) == if AccountGroups in edges then Found(a.edges.accountGroups) else NotLoaded
    ensures (a.edges.groups.Items? <==> v.groups.Items?) && (a.edges.children.Items? <==> v.children.Items?)
    ensures a.edges.usageLogs.Items? <==> v.usageLogs.Items?
    ensures a.edges.accountGroups.Items? <==> v.accountGroups.Items?
  {
  }

  /** ProxyOrErr after any successful load: not-loaded iff the edge was not requested; the proxy iff
      it was requested and the sub-query returned the row with the node's key, and then with that
      row's fields; otherwise not-found. */
  lemma ProxyOrErrExact(db: Store, q: Request, core: Core, i: nat, a: Account, R: set<Account>)
    requires db.Valid() && Run(db, q, core).Ok? && i < |Run(db, q, core).value|
    requires Shows(a, Run(db, q, core).value[i], R)
    ensures |a.edges.loadedTypes| == 6
    ensures ProxyOrErr(a.edges).NotLoaded? <==> Proxy !in q.with
    ensures ProxyOrErr(a.edges).Found? <==>
              Proxy in q.with && exists r :: Answers(ProxiesReturned(db, q, core), KeyOf(a.fields, ProxyID), r)
    ensures Proxy in q.with ==> forall r :: Answers(ProxiesReturned(db, q, core), KeyOf(a.fields, ProxyID), r) ==>
              ProxyOrErr(a.edges).Found?
              && ProxyOrErr(a.edges).value.fields == Scan(r, IdColumns(q.with[Proxy].core.fields, db.proxies.columns))
  {
    ResultShape(db, q, core, i);
    ProxyAccessor(Run(db, q, core).value[i], q.with.Keys, a, R);
    if Proxy in q.with {
      var r := ViewProxy(db, q, core, i);
      assert r.Some? ==> Answers(ProxiesReturned(db, q, core), KeyOf(a.fields, ProxyID), r.value);
    }
  }

  lemma ParentOrErrExact(db: Store, q: Request, core: Core, i: nat, a: Account, R: set<Account>)
    requires db.Valid() && Run(db, q, core).Ok? && i < |Run(db, q, core).value|
    requires Shows(a, Run(db, q, core).value[i], R)
    ensures |a.edges.loadedTypes| == 6
    ensures ParentOrErr(a.edges).NotLoaded? <==> Parent !in q.with
    ensures ParentOrErr(a.edges).Found? <==>
              Parent in q.with && exists r :: Answers(ParentsReturned(db, q, core), KeyOf(a.fields, ParentAccountID), r)
    ensures Parent in q.with ==>
              forall r :: Answers(ParentsReturned(db, q, core), KeyOf(a.fields, ParentAccountID), r) ==>
              ParentOrErr(a.edges).Found?
              && ParentOrErr(a.edges).value.fields == Scan(r,
                                                           AccountSelection(q.with[Parent].core,
                                                               q.with[Parent].with.Keys, db.accounts.columns))
  {
    ResultShape(db, q, core, i);
    ParentAccessor(Run(db, q, core).value[i], q.with.Keys, a, R);
    if Parent in q.with {
      var r := ViewParent(db, q, core, i);
      assert r.Some? ==> Answers(ParentsReturned(db, q, core), KeyOf(a.fields, ParentAccountID), r.value);
    }
  }

  /** The key of a loaded node is among the keys asked for. */
  lemma KeyAsked(db: Store, q: Request, core: Core, i: nat, c: Column)
    requires Run(db, q, core).Ok? && i < |Run(db, q, core).value|
    ensures var k := KeyOf(Run(db, q, core).value[i].fields, c);
            k.Some? ==> k.value in KeySet(Keys(BaseOf(db, q, core), c))
  {
    RunRows(db, q, core);
    assert FieldsOf(Run(db, q, core).value)[i] == BaseOf(db, q, core)[i];
    if KeyOf(BaseOf(db, q, core)[i], c).Some? {
      InKeys(BaseOf(db, q, core), c, i);
    }
  }

  /** If the proxy sub-query has no window, whatever the other edges have, found means that the
      referenced row exists and passes its predicates. */
  lemma ProxyFoundIffReferred(db: Store, q: Request, core: Core, i: nat, a: Account, R: set<Account>)
    requires db.Valid() && Run(db, q, core).Ok? && i < |Run(db, q, core).value|
    requires Shows(a, Run(db, q, core).value[i], R)
    requires Proxy in q.with && Unwindowed(q.with[Proxy].core)
    ensures |a.edges.loadedTypes| == 6
    ensures ProxyOrErr(a.edges).Found? <==>
              exists r :: Refers(db.proxies.rows, q.with[Proxy].core, KeyOf(a.fields, ProxyID), r)
  {
    ProxyOrErrExact(db, q, core, i, a, R);
    KeyAsked(db, q, core, i, ProxyID);
    var fks, fk := KeySet(Keys(BaseOf(db, q, core), ProxyID)), KeyOf(a.fields, ProxyID);
    forall r ensures Answers(ProxiesReturned(db, q, core), fk, r) <==> Refers(db.proxies.rows, q.with[Proxy].core, fk,
        r) {
      AnswersRefers(db.proxies, q.with[Proxy].core, fks, fk, r);
    }
  }

  lemma ParentFoundIffReferred(db: Store, q: Request, core: Core, i: nat, a: Account, R: set<Account>)
    requires db.Valid() && Run(db, q, core).Ok? && i < |Run(db, q, core).value|
    requires Shows(a, Run(db, q, core).value[i], R)
    requires Parent in q.with && Unwindowed(q.with[Parent].core)
    ensures |a.edges.loadedTypes| == 6
    ensures ParentOrErr(a.edges).Found? <==>
              exists r :: Refers(db.accounts.rows, q.with[Parent].core, KeyOf(a.fields, ParentAccountID), r)
  {
    ParentOrErrExact(db, q, core, i, a, R);
    KeyAsked(db, q, core, i, ParentAccountID);
    var fks, fk := KeySet(Keys(BaseOf(db, q, core), ParentAccountID)), KeyOf(a.fields, ParentAccountID);
    forall r ensures Answers(ParentsReturned(db, q, core), fk, r) <==> Refers(db.accounts.rows, q.with[Parent].core,
        fk, r) {
      AnswersRefers(db.accounts, q.with[Parent].core, fks, fk, r);
    }
  }

  // ---------------------------------------------------------------- parent and children are converse

  /** Row r is a child of account id p. */
  ghost predicate ChildRow(rows: seq<Row>, r: Row, p: int) {
    r in rows && KeyOf(r, ParentAccountID) == Some(p)
  }

  ghost predicate HasChild(v: View, id: int) {
    v.children.Items? && exists k :: 0 <= k < |v.children.items| && IdOf(v.children.items[k].fields) == id
  }

  ghost predicate HasParent(v: View, id: int) {
    v.parent.Some? && IdOf(v.parent.value.fields) == id
  }

  /** What the children sub-query of a load returned. */
  function ChildrenReturned(db: Store, q: Request, core: Core): seq<Row>
    requires Children in q.with
  {
    Returned(db.accounts, WithField(q.with[Children].core, ParentAccountID), ParentAccountID,
             KeySet(IdKeys(BaseOf(db, q, core))))
  }

  lemma ChildRowsAre(db: Store, c: Request, base: seq<Row>)
    requires ChildViews(db, c, base).Ok?
    ensures var q := WithField(c.core, ParentAccountID);
            FieldsOf(ChildViews(db, c, base).value) ==
              ScanRows(Returned(db.accounts, q, ParentAccountID, KeySet(IdKeys(base))),
                       AccountSelection(q, c.with.Keys, db.accounts.columns))
  {
    var q, ids := WithField(c.core, ParentAccountID), KeySet(IdKeys(base));
    RunRows(db, c, Where(q, ColumnIn(ParentAccountID, ids)));
    BaseIsLeaf(db, q, ColumnIn(ParentAccountID, ids), c.with.Keys);
  }

  ghost predicate Lists(rows: seq<Row>, id: int) {
    exists k :: 0 <= k < |rows| && IdOf(rows[k]) == id
  }

  ghost predicate HasChildRow(rows: seq<Row>, p: int, id: int) {
    exists r :: ChildRow(rows, r, p) && KeyOf(r, ID) == Some(id)
  }

  lemma DealtComes(rows: seq<Row>, p: int, k: nat)
    requires PrimaryKey(rows) && k < |BatchChildren(rows, p)|
    ensures HasChildRow(rows, p, IdOf(BatchChildren(rows, p)[k]))
  {
    var idx := Hits(Keys(rows, ParentAccountID), p);
    HitsExact(Keys(rows, ParentAccountID), |rows|, p);
    assert idx[k] in idx;
    assert ChildRow(rows, rows[idx[k]], p);
  }

  lemma ChildDealt(rows: seq<Row>, p: int, j: nat)
    requires j < |rows| && KeyOf(rows[j], ParentAccountID) == Some(p)
    ensures Lists(BatchChildren(rows, p), IdOf(rows[j]))
  {
    var keys := Keys(rows, ParentAccountID);
    var idx := Hits(keys, p);
    HitsExact(keys, |keys|, p);
    assert j in idx;
    var k :| 0 <= k < |idx| && idx[k] == j;
    assert BatchChildren(rows, p)[k] == rows[j];
  }

  /** Among the rows dealt to a node: those that carry its ID as parent. */
  lemma DealtChild(rows: seq<Row>, p: int, id: int)
    requires PrimaryKey(rows)
    ensures Lists(BatchChildren(rows, p), id) <==> HasChildRow(rows, p, id)
  {
    if Lists(BatchChildren(rows, p), id) {
      var k :| 0 <= k < |BatchChildren(rows, p)| && IdOf(BatchChildren(rows, p)[k]) == id;
      DealtComes(rows, p, k);
    }
    if HasChildRow(rows, p, id) {
      var r :| ChildRow(rows, r, p) && KeyOf(r, ID) == Some(id);
      var j :| 0 <= j < |rows| && rows[j] == r;
      ChildDealt(rows, p, j);
    }
  }

  /** Scanning keeps the IDs and the parent keys. */
  lemma ScannedChildren(rows: seq<Row>, columns: seq<Column>, p: int, id: int)
    requires PrimaryKey(rows) && ID in columns && ParentAccountID in columns
    ensures Lists(BatchChildren(ScanRows(rows, columns), p), id) <==> Lists(BatchChildren(rows, p), id)
  {
    ScanKeys(rows, columns, ParentAccountID);
    ScanPick(rows, columns, Hits(Keys(rows, ParentAccountID), p));
    var idx := Hits(Keys(rows, ParentAccountID), p);
    assert forall k | 0 <= k < |idx| :: IdOf(Scan(rows[idx[k]], columns)) == IdOf(rows[idx[k]]);
  }

  lemma ChildViewRows(v: View, kids: seq<View>, f: Row, id: int)
    requires v.children == Items(ChildrenOf(kids, IdOf(f)))
    ensures HasChild(v, id) <==> Lists(BatchChildren(FieldsOf(kids), IdOf(f)), id)
  {
    var idx := Hits(Keys(FieldsOf(kids), ParentAccountID), IdOf(f));
    assert forall k | 0 <= k < |idx| :: v.children.items[k].fields == BatchChildren(FieldsOf(kids), IdOf(f))[k];
  }

  lemma ResultChildren(db: Store, q: Request, core: Core, i: nat) returns (kids: seq<View>)
    requires Run(db, q, core).Ok? && i < |Run(db, q, core).value| && Children in q.with
    ensures i < |BaseOf(db, q, core)| && Run(db, q, core).value[i].fields == BaseOf(db, q, core)[i]
    ensures Run(db, q, core).value[i].children == Items(ChildrenOf(kids, IdOf(BaseOf(db, q, core)[i])))
    ensures ChildViews(db, q.with[Children], BaseOf(db, q, core)) == Ok(kids)
  {
    var nb := ResultJoin(db, q, core, i);
    GatherParts(db, q, BaseOf(db, q, core), nb);
    kids := nb.children;
  }

  /** The children of a loaded node: the returned rows with its ID as parent. */
  lemma ViewChildren(db: Store, q: Request, core: Core, i: nat, id: int)
    requires db.Valid() && Run(db, q, core).Ok? && i < |Run(db, q, core).value| && Children in q.with
    ensures var v := Run(db, q, core).value[i];
            HasChild(v, id) <==> HasChildRow(ChildrenReturned(db, q, core), IdOf(v.fields), id)
  {
    var v, base, c := Run(db, q, core).value[i], BaseOf(db, q, core), q.with[Children];
    var sub, rows := WithField(c.core, ParentAccountID), ChildrenReturned(db, q, core);
    var columns := AccountSelection(sub, c.with.Keys, db.accounts.columns);
    var kids := ResultChildren(db, q, core, i);
    ChildRowsAre(db, c, base);
    FetchKeys(db.accounts.rows, Traverse(Where(sub, ColumnIn(ParentAccountID, KeySet(IdKeys(base))))));
    ChildViewRows(v, kids, base[i], id);
    ScannedChildren(rows, columns, IdOf(base[i]), id);
    DealtChild(rows, IdOf(base[i]), id);
  }

  /** Without a window exactly the child rows that pass the filter come back. */
  lemma ChildrenReturnedPass(db: Store, q: Request, core: Core, i: nat, r: Row)
    requires Run(db, q, core).Ok? && i < |Run(db, q, core).value| && Children in q.with
    requires Unwindowed(q.with[Children].core)
    ensures var p := IdOf(Run(db, q, core).value[i].fields);
            ChildRow(ChildrenReturned(db, q, core), r, p) <==>
              ChildRow(db.accounts.rows, r, p) && PassesFilter(q.with[Children].core, r)
  {
    var base, sub := BaseOf(db, q, core), WithField(q.with[Children].core, ParentAccountID);
    var ids := KeySet(IdKeys(base));
    RunRows(db, q, core);
    assert FieldsOf(Run(db, q, core).value)[i] == base[i];
    InIds(base, i);
    FetchComplete(db.accounts.rows, Traverse(Where(sub, ColumnIn(ParentAccountID, ids))), r);
    WhereHolds(sub, ParentAccountID, ids, r);
    HoldsBoth(sub.predicates, Traversed(sub.inters), r);
  }

  /** The account of row rc is listed as a child iff its parent key is the node's ID and it passes
      the filter of the children sub-query. */
  lemma ChildListed(db: Store, q: Request, core: Core, i: nat, rc: Row)
    requires db.Valid() && Run(db, q, core).Ok? && i < |Run(db, q, core).value|
    requires Children in q.with && Unwindowed(q.with[Children].core) && rc in db.accounts.rows
    ensures var p := Run(db, q, core).value[i];
            HasChild(p, IdOf(rc)) <==>
              KeyOf(rc, ParentAccountID) == Some(IdOf(p.fields)) && PassesFilter(q.with[Children].core, rc)
  {
    var p := Run(db, q, core).value[i];
    ViewChildren(db, q, core, i, IdOf(rc));
    ChildrenReturnedPass(db, q, core, i, rc);
    if HasChild(p, IdOf(rc)) {
      var r :| ChildRow(ChildrenReturned(db, q, core), r, IdOf(p.fields)) && KeyOf(r, ID) == Some(IdOf(rc));
      ChildrenReturnedPass(db, q, core, i, r);
      SamePrimaryKey(db.accounts.rows, r, rc);
    }
  }

  /** The loaded parent is the account of row rp iff rp has the node's parent key and passes the
      filter of the parent sub-query. */
  lemma ParentListed(db: Store, q: Request, core: Core, j: nat, rp: Row)
    requires db.Valid() && Run(db, q, core).Ok? && j < |Run(db, q, core).value|
    requires Parent in q.with && Unwindowed(q.with[Parent].core) && rp in db.accounts.rows
    ensures HasParent(Run(db, q, core).value[j], IdOf(rp)) <==>
              KeyOf(Run(db, q, core).value[j].fields, ParentAccountID) == Some(IdOf(rp))
              && PassesFilter(q.with[Parent].core, rp)
  {
    var c, sub := Run(db, q, core).value[j], q.with[Parent].core;
    var r := ViewParent(db, q, core, j);
    KeyAsked(db, q, core, j, ParentAccountID);
    var fk := KeyOf(c.fields, ParentAccountID);
    var rows := ParentsReturned(db, q, core);
    AnswersRefers(db.accounts, sub, KeySet(Keys(BaseOf(db, q, core), ParentAccountID)), fk, rp);
    if r.Some? {
      AnswersRefers(db.accounts, sub, KeySet(Keys(BaseOf(db, q, core), ParentAccountID)), fk, r.value);
    }
    AnsweredParent(db.accounts.rows, rows, fk, r, rp,
                   AccountSelection(sub, q.with[Parent].with.Keys, db.accounts.columns), c);
  }

  lemma AnsweredParent(table: seq<Row>, rows: seq<Row>, fk: Option<int>, r: Option<Row>, rp: Row, columns: seq<Column>,
                       c: View)
    requires PrimaryKey(table) && rp in table && (r.Some? ==> r.value in table)
    requires (forall s :: Answers(rows, fk, s) <==> r == Some(s)) && ID in columns
    requires (c.parent.Some? <==> r.Some?) && (r.Some? ==> c.parent.value.fields == Scan(r.value, columns))
    ensures HasParent(c, IdOf(rp)) <==> Answers(rows, fk, rp)
  {
    if r.Some? {
      assert Answers(rows, fk, r.value);
      assert IdOf(c.parent.value.fields) == IdOf(r.value);
      if IdOf(r.value) == IdOf(rp) {
        SamePrimaryKey(table, r.value, rp);
      }
    }
  }

  /** Over one snapshot, for any two loads whose children and parent sub-queries have no window: c is
      among the loaded children of p and p passes the filter of the parent sub-query exactly when the
      loaded parent of c is p and c passes the filter of the children sub-query.  Here rp and rc are
      the table rows of p and c; every other edge, at any depth, is free. */
  lemma ParentChildConverse(db: Store, q1: Request, core1: Core, i: nat, q2: Request, core2: Core, j: nat, rp: Row,
                            rc: Row)
    requires db.Valid()
    requires Children in q1.with && Unwindowed(q1.with[Children].core)
    requires Parent in q2.with && Unwindowed(q2.with[Parent].core)
    requires Run(db, q1, core1).Ok? && i < |Run(db, q1, core1).value|
    requires Run(db, q2, core2).Ok? && j < |Run(db, q2, core2).value|
    requires rp in db.accounts.rows && IdOf(rp) == IdOf(Run(db, q1, core1).value[i].fields)
    requires rc in db.accounts.rows && IdOf(rc) == IdOf(Run(db, q2, core2).value[j].fields)
    ensures HasChild(Run(db, q1, core1).value[i], IdOf(rc)) && PassesFilter(q2.with[Parent].core, rp) <==>
              HasParent(Run(db, q2, core2).value[j], IdOf(rp)) && PassesFilter(q1.with[Children].core, rc)
  {
    var r := EntityRow(db, q2, core2, j);
    SamePrimaryKey(db.accounts.rows, r, rc);
    EntityKey(db, q2, core2, j, rc, Parent, ParentAccountID);
    ChildListed(db, q1, core1, i, rc);
    ParentListed(db, q2, core2, j, rp);
  }

  /** A query that filters no more than another one does. */
  ghost predicate FiltersNoMore(q: Core, than: Core) {
    forall n | 0 <= n < |Traverse(q).predicates| :: Traverse(q).predicates[n] in Traverse(than).predicates
  }

  lemma PassesTheWider(q: Core, than: Core, r: Row)
    requires FiltersNoMore(q, than) && PassesFilter(than, r)
    ensures PassesFilter(q, r)
  {
    var ps := Traverse(q).predicates;
    forall n | 0 <= n < |ps| ensures Holds(ps[n], r) {
      assert ps[n] in Traverse(than).predicates;
    }
  }

  /** If the parent sub-query filters no more than the query that returned p, and the children
      sub-query no more than the one that returned c, parent and children are plainly converse. */
  lemma ConverseUnderFilters(db: Store, q1: Request, core1: Core, i: nat, q2: Request, core2: Core, j: nat)
    requires db.Valid()
    requires Children in q1.with && Unwindowed(q1.with[Children].core) && FiltersNoMore(q1.with[Children].core, core2)
    requires Parent in q2.with && Unwindowed(q2.with[Parent].core) && FiltersNoMore(q2.with[Parent].core, core1)
    requires Run(db, q1, core1).Ok? && i < |Run(db, q1, core1).value|
    requires Run(db, q2, core2).Ok? && j < |Run(db, q2, core2).value|
    ensures var p, c := Run(db, q1, core1).value[i], Run(db, q2, core2).value[j];
            HasChild(p, IdOf(c.fields)) <==> HasParent(c, IdOf(p.fields))
  {
    var rp := EntityRow(db, q1, core1, i);
    var rc := EntityRow(db, q2, core2, j);
    PassesTheWider(q2.with[Parent].core, core1, rp);
    PassesTheWider(q1.with[Children].core, core2, rc);
    ParentChildConverse(db, q1, core1, i, q2, core2, j, rp, rc);
  }

  /** A sub-builder as WithParent and WithChildren make it: the client's interceptors, no predicate
      and no window of its own. */
  ghost predicate Fresh(core: Core, inters: seq<Interceptor>) {
    core.predicates == [] && core.inters == inters && Unwindowed(core)
  }

  /** All four builders come from one client, so they have the same interceptors, the soft-delete
      traverser among them or not; the base queries may have any predicates, order and window. */
  lemma ClientConverse(db: Store, inters: seq<Interceptor>, q1: Request, core1: Core, i: nat, q2: Request, core2: Core,
                       j: nat)
    requires db.Valid() && core1.inters == inters && core2.inters == inters
    requires Children in q1.with && Fresh(q1.with[Children].core, inters)
    requires Parent in q2.with && Fresh(q2.with[Parent].core, inters)
    requires Run(db, q1, core1).Ok? && i < |Run(db, q1, core1).value|
    requires Run(db, q2, core2).Ok? && j < |Run(db, q2, core2).value|
    ensures var p, c := Run(db, q1, core1).value[i], Run(db, q2, core2).value[j];
            HasChild(p, IdOf(c.fields)) <==> HasParent(c, IdOf(p.fields))
  {
    assert FiltersNoMore(q1.with[Children].core, core2);
    assert FiltersNoMore(q2.with[Parent].core, core1);
    ConverseUnderFilters(db, q1, core1, i, q2, core2, j);
  }

  /** A query without predicates whose interceptors add none, as under SkipSoftDelete. */
  predicate Unfiltered(core: Core) {
    |core.predicates| == 0 && |Traversed(core.inters)| == 0
  }

  /** Unfiltered sub-queries, whatever filters the base queries have. */
  lemma UnfilteredConverse(db: Store, q1: Request, core1: Core, i: nat, q2: Request, core2: Core, j: nat)
    requires db.Valid()
    requires Children in q1.with && Unwindowed(q1.with[Children].core) && Unfiltered(q1.with[Children].core)
    requires Parent in q2.with && Unwindowed(q2.with[Parent].core) && Unfiltered(q2.with[Parent].core)
    requires Run(db, q1, core1).Ok? && i < |Run(db, q1, core1).value|
    requires Run(db, q2, core2).Ok? && j < |Run(db, q2, core2).value|
    ensures var p, c := Run(db, q1, core1).value[i], Run(db, q2, core2).value[j];
            HasChild(p, IdOf(c.fields)) <==> HasParent(c, IdOf(p.fields))
  {
    ConverseUnderFilters(db, q1, core1, i, q2, core2, j);
  }
}
