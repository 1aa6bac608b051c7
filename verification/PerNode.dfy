/** Eager loading against loading edge by edge: the batched joins give what one sub-query per node
    and edge gives if and only if every batch fits the window of its sub-query. */
module PerNode {
  import opened Schema
  import opened Store
  import opened QueryFacts
  import opened EagerSpec
  import opened Windows
  import opened Bags
  import opened PerNodeSpec
  import opened Batches
  import opened Links
  import opened GroupOrder
  import Projection

  // ---------------------------------------------------------------- the rows of account edges

  lemma BaseIsLeaf(db: Store, core: Core, p: Pred, edges: set<Edge>)
    ensures Base(db, Traverse(Where(core, p)), edges) ==
              LeafRowsOf(db.accounts, Where(core, p), AccountSelection(core, edges, db.accounts.columns))
  {
  }

  /** The parent row of a node: in the batch, and by its own sub-query. */
  function BatchParent(parents: seq<Row>, f: Row): Option<Row> {
    At(parents, LastHit(IdKeys(parents), KeyOf(f, ParentAccountID)))
  }

  function OwnParentRow(db: Store, p: Request, f: Row): Option<Row> {
    var fk := KeyOf(f, ParentAccountID);
    if fk.None? then None else Last(Base(db, Traverse(Where(p.core, ColumnIn(ID, {fk.value}))), p.with.Keys))
  }

  lemma ParentRowOf(db: Store, p: Request, base: seq<Row>, i: nat)
    requires db.Valid() && i < |base| && KeyOf(base[i], ParentAccountID).Some?
    ensures var fks := KeySet(Keys(base, ParentAccountID));
            BatchParent(ParentBase(db, p, base), base[i]) == OwnParentRow(db, p, base[i]) <==>
              Served(Owners(db.accounts, p.core, ID, fks), p.core.limit, p.core.offset,
                     KeyOf(base[i], ParentAccountID).value)
  {
    var fks, fk := KeySet(Keys(base, ParentAccountID)), KeyOf(base[i], ParentAccountID).value;
    var columns := AccountSelection(p.core, p.with.Keys, db.accounts.columns);
    InKeys(base, ParentAccountID, i);
    BaseIsLeaf(db, p.core, ColumnIn(ID, fks), p.with.Keys);
    BaseIsLeaf(db, p.core, ColumnIn(ID, {fk}), p.with.Keys);
    KeyedOwners(db.accounts, p.core, fks);
    LastIff(db.accounts, p.core, ID, fks, fk, columns);
    LeafKeys(db.accounts, p.core, ID, fks, columns);
  }

  ghost predicate ParentRowsAgree(db: Store, p: Request, base: seq<Row>) {
    forall i | 0 <= i < |base| :: BatchParent(ParentBase(db, p, base), base[i]) == OwnParentRow(db, p, base[i])
  }

  /** Parents, as rows: exactly if the batch of parents fits. */
  lemma ParentRowsIff(db: Store, p: Request, base: seq<Row>)
    requires db.Valid()
    ensures ParentRowsAgree(db, p, base) <==> FitsEdge(db.accounts, p.core, ID, KeySet(Keys(base, ParentAccountID)))
  {
    var fks := KeySet(Keys(base, ParentAccountID));
    var owners := Owners(db.accounts, p.core, ID, fks);
    OwnersKnown(db.accounts, p.core, ID, fks);
    ServedKeys(owners, p.core.limit, p.core.offset, base, ParentAccountID);
    forall i | 0 <= i < |base| ensures
      BatchParent(ParentBase(db, p, base), base[i]) == OwnParentRow(db, p, base[i]) <==>
        (KeyOf(base[i], ParentAccountID).Some? ==>
           Served(owners, p.core.limit, p.core.offset, KeyOf(base[i], ParentAccountID).value))
    {
      if KeyOf(base[i], ParentAccountID).Some? {
        ParentRowOf(db, p, base, i);
      }
    }
  }

  /** The children rows of a node: in the batch, and by its own sub-query. */
  function BatchChildren(children: seq<Row>, id: int): seq<Row> {
    Pick(children, Hits(Keys(children, ParentAccountID), id))
  }

  function OwnChildRows(db: Store, c: Request, f: Row): seq<Row> {
    Base(db, Traverse(Where(WithField(c.core, ParentAccountID), ColumnIn(ParentAccountID, {IdOf(f)}))), c.with.Keys)
  }

  lemma ChildRowsOf(db: Store, c: Request, base: seq<Row>, i: nat)
    requires db.Valid() && i < |base|
    ensures BatchChildren(ChildBase(db, c, base), IdOf(base[i])) == OwnChildRows(db, c, base[i]) <==>
              Served(Owners(db.accounts, c.core, ParentAccountID, KeySet(IdKeys(base))), c.core.limit, c.core.offset,
                     IdOf(base[i]))
  {
    var core, ids, id := WithField(c.core, ParentAccountID), KeySet(IdKeys(base)), IdOf(base[i]);
    var columns := AccountSelection(core, c.with.Keys, db.accounts.columns);
    InIds(base, i);
    BaseIsLeaf(db, core, ColumnIn(ParentAccountID, ids), c.with.Keys);
    BaseIsLeaf(db, core, ColumnIn(ParentAccountID, {id}), c.with.Keys);
    KeyedRows(db.accounts.rows, columns);
    WholePart(db.accounts, core, ParentAccountID, ids, columns);
    LeafIff(db.accounts, core, ParentAccountID, ids, id, columns);
    OwnersField(db.accounts, c.core, ParentAccountID, ids, ParentAccountID);
  }

  ghost predicate ChildRowsAgree(db: Store, c: Request, base: seq<Row>) {
    forall i | 0 <= i < |base| :: BatchChildren(ChildBase(db, c, base), IdOf(base[i])) == OwnChildRows(db, c, base[i])
  }

  /** Children, as rows: exactly if the batch of children fits. */
  lemma ChildRowsIff(db: Store, c: Request, base: seq<Row>)
    requires db.Valid()
    ensures ChildRowsAgree(db, c, base) <==> FitsEdge(db.accounts, c.core, ParentAccountID, KeySet(IdKeys(base)))
  {
    var owners := Owners(db.accounts, c.core, ParentAccountID, KeySet(IdKeys(base)));
    OwnersKnown(db.accounts, c.core, ParentAccountID, KeySet(IdKeys(base)));
    ServedNodes(owners, c.core.limit, c.core.offset, base);
    forall i | 0 <= i < |base| ensures
      BatchChildren(ChildBase(db, c, base), IdOf(base[i])) == OwnChildRows(db, c, base[i]) <==>
        Served(owners, c.core.limit, c.core.offset, IdOf(base[i]))
    {
      ChildRowsOf(db, c, base, i);
    }
  }

  // ---------------------------------------------------------------- the views of account edges

  /** The views are those of the rows, each loaded on its own. */
  ghost predicate Loaded(strict: bool, db: Store, q: Request, vs: seq<View>, rows: seq<Row>)
    requires |vs| == |rows|
  {
    forall j | 0 <= j < |rows| :: Same(strict, vs[j], NodeView(db, q, rows[j]))
  }

  lemma LoadedIsSameAll(strict: bool, db: Store, q: Request, core: Core, vs: seq<View>)
    requires |vs| == |Base(db, Traverse(core), q.with.Keys)|
    ensures SameAll(strict, vs, Nodes(db, q, core)) <==>
              Loaded(strict, db, q, vs, Base(db, Traverse(core), q.with.Keys))
  {
  }

  lemma NodesAre(db: Store, q: Request, core: Core)
    ensures var rows, vs := Base(db, Traverse(core), q.with.Keys), Nodes(db, q, core);
            |vs| == |rows| && forall m | 0 <= m < |rows| :: vs[m] == NodeView(db, q, rows[m])
  {
  }

  lemma LastView(db: Store, p: Request, vs: seq<View>, rows: seq<Row>)
    requires |vs| == |rows| && forall m | 0 <= m < |rows| :: vs[m] == NodeView(db, p, rows[m])
    ensures Last(vs).Some? <==> Last(rows).Some?
    ensures Last(vs).Some? ==> Last(vs).value == NodeView(db, p, Last(rows).value)
  {
  }

  lemma OwnParentView(db: Store, p: Request, f: Row)
    ensures OwnParent(db, p, f).Some? <==> OwnParentRow(db, p, f).Some?
    ensures OwnParent(db, p, f).Some? ==> OwnParent(db, p, f).value == NodeView(db, p, OwnParentRow(db, p, f).value)
  {
    var fk := KeyOf(f, ParentAccountID);
    if fk.Some? {
      var core := Where(p.core, ColumnIn(ID, {fk.value}));
      NodesAre(db, p, core);
      LastView(db, p, Nodes(db, p, core), Base(db, Traverse(core), p.with.Keys));
    }
  }

  lemma ParentViewOf(strict: bool, db: Store, p: Request, vs: seq<View>, rows: seq<Row>, f: Row)
    requires FieldsOf(vs) == rows
    ensures var j := LastHit(IdKeys(rows), KeyOf(f, ParentAccountID));
            SameParent(strict, ParentOf(vs, f), OwnParent(db, p, f)) <==>
              BatchParent(rows, f) == OwnParentRow(db, p,
                                                   f) && (j >= 0 ==> Same(strict, vs[j], NodeView(db, p, rows[j])))
  {
    OwnParentView(db, p, f);
    var j := LastHit(IdKeys(rows), KeyOf(f, ParentAccountID));
    if j >= 0 {
      assert vs[j].fields == rows[j];
    }
  }

  ghost predicate ParentsAgree(strict: bool, db: Store, p: Request, base: seq<Row>, vs: seq<View>) {
    forall i | 0 <= i < |base| :: SameParent(strict, ParentOf(vs, base[i]), OwnParent(db, p, base[i]))
  }

  /** Every loaded parent is the parent of some node of the batch. */
  lemma ParentIsUsed(db: Store, p: Request, base: seq<Row>, j: nat) returns (i: nat)
    requires db.Valid() && j < |ParentBase(db, p, base)|
    ensures i < |base| && LastHit(IdKeys(ParentBase(db, p, base)), KeyOf(base[i], ParentAccountID)) == j
  {
    var fks, rows := KeySet(Keys(base, ParentAccountID)), ParentBase(db, p, base);
    var core := Traverse(Where(p.core, ColumnIn(ID, fks)));
    var raw := Fetch(db.accounts.rows, core);
    FetchHolds(db.accounts.rows, core, j);
    WhereHolds(p.core, ID, fks, raw[j]);
    FetchKeys(db.accounts.rows, core);
    KeysExact(Keys(base, ParentAccountID), |base|);
    i :| 0 <= i < |base| && Keys(base, ParentAccountID)[i] == KeyOf(raw[j], ID);
    assert IdKeys(rows) == Keys(raw, ID);
    OnlyHit(Keys(raw, ID), j);
  }

  lemma OnlyHit(keys: seq<Option<int>>, j: nat)
    requires NoRepeats(keys) && j < |keys| && keys[j].Some?
    ensures LastHit(keys, keys[j]) == j
  {
    LastExact(keys, |keys|, keys[j]);
  }

  lemma ParentsIff(strict: bool, db: Store, p: Request, base: seq<Row>, vs: seq<View>)
    requires db.Valid() && FieldsOf(vs) == ParentBase(db, p, base)
    ensures ParentsAgree(strict, db, p, base, vs) <==>
              ParentRowsAgree(db, p, base) && Loaded(strict, db, p, vs, ParentBase(db, p, base))
  {
    var rows := ParentBase(db, p, base);
    forall i | 0 <= i < |base| ensures
      var j := LastHit(IdKeys(rows), KeyOf(base[i], ParentAccountID));
      SameParent(strict, ParentOf(vs, base[i]), OwnParent(db, p, base[i])) <==>
        BatchParent(rows, base[i]) == OwnParentRow(db, p,
                                                   base[i]) && (j >= 0 ==> Same(strict, vs[j],
                                                       NodeView(db, p, rows[j])))
    {
      ParentViewOf(strict, db, p, vs, rows, base[i]);
    }
    if ParentsAgree(strict, db, p, base, vs) {
      forall j | 0 <= j < |rows| ensures Same(strict, vs[j], NodeView(db, p, rows[j])) {
        var i := ParentIsUsed(db, p, base, j);
      }
    }
  }

  lemma ChildViewsOf(strict: bool, db: Store, c: Request, vs: seq<View>, rows: seq<Row>, f: Row)
    requires FieldsOf(vs) == rows
    ensures var idx := Hits(Keys(rows, ParentAccountID), IdOf(f));
            SameAll(strict, ChildrenOf(vs, IdOf(f)), OwnChildren(db, c, f)) <==>
              && BatchChildren(rows, IdOf(f)) == OwnChildRows(db, c, f)
              && forall m | 0 <= m < |idx| :: Same(strict, vs[idx[m]], NodeView(db, c, rows[idx[m]]))
  {
    var idx := Hits(Keys(rows, ParentAccountID), IdOf(f));
    var core := Where(WithField(c.core, ParentAccountID), ColumnIn(ParentAccountID, {IdOf(f)}));
    NodesAre(db, c, core);
    assert ChildrenOf(vs, IdOf(f)) == Pick(vs, idx);
    ViewsMatch(strict, db, c, Pick(vs, idx), OwnChildren(db, c, f), Pick(rows, idx), OwnChildRows(db, c, f));
  }

  lemma ViewsMatch(strict: bool, db: Store, c: Request, kids: seq<View>, own: seq<View>, rows: seq<Row>,
                   ownRows: seq<Row>)
    requires |kids| == |rows| && forall m | 0 <= m < |rows| :: kids[m].fields == rows[m]
    requires |own| == |ownRows| && forall m | 0 <= m < |ownRows| :: own[m] == NodeView(db, c, ownRows[m])
    ensures SameAll(strict, kids, own) <==>
              rows == ownRows && forall m | 0 <= m < |rows| :: Same(strict, kids[m], NodeView(db, c, rows[m]))
  {
    if SameAll(strict, kids, own) {
      forall m | 0 <= m < |rows| ensures rows[m] == ownRows[m] {
        assert Same(strict, kids[m], own[m]);
      }
    }
  }

  ghost predicate ChildrenAgree(strict: bool, db: Store, c: Request, base: seq<Row>, vs: seq<View>) {
    forall i | 0 <= i < |base| :: SameAll(strict, ChildrenOf(vs, IdOf(base[i])), OwnChildren(db, c, base[i]))
  }

  /** Every loaded child is the child of some node of the batch. */
  lemma ChildIsUsed(db: Store, c: Request, base: seq<Row>, j: nat) returns (i: nat)
    requires db.Valid() && j < |ChildBase(db, c, base)|
    ensures i < |base| && j in Hits(Keys(ChildBase(db, c, base), ParentAccountID), IdOf(base[i]))
  {
    var q, ids, rows := WithField(c.core, ParentAccountID), KeySet(IdKeys(base)), ChildBase(db, c, base);
    var core := Traverse(Where(q, ColumnIn(ParentAccountID, ids)));
    FetchHolds(db.accounts.rows, core, j);
    WhereHolds(q, ParentAccountID, ids, Fetch(db.accounts.rows, core)[j]);
    KeysExact(IdKeys(base), |base|);
    i :| 0 <= i < |base| && IdKeys(base)[i] == KeyOf(Fetch(db.accounts.rows, core)[j], ParentAccountID);
    assert Keys(rows, ParentAccountID)[j] == Some(IdOf(base[i]));
    HitsExact(Keys(rows, ParentAccountID), |rows|, IdOf(base[i]));
  }

  lemma ChildrenIff(strict: bool, db: Store, c: Request, base: seq<Row>, vs: seq<View>)
    requires db.Valid() && FieldsOf(vs) == ChildBase(db, c, base)
    ensures ChildrenAgree(strict, db, c, base, vs) <==>
              ChildRowsAgree(db, c, base) && Loaded(strict, db, c, vs, ChildBase(db, c, base))
  {
    var rows := ChildBase(db, c, base);
    forall i | 0 <= i < |base| ensures
      var idx := Hits(Keys(rows, ParentAccountID), IdOf(base[i]));
      SameAll(strict, ChildrenOf(vs, IdOf(base[i])), OwnChildren(db, c, base[i])) <==>
        && BatchChildren(rows, IdOf(base[i])) == OwnChildRows(db, c, base[i])
        && forall m | 0 <= m < |idx| :: Same(strict, vs[idx[m]], NodeView(db, c, rows[idx[m]]))
    {
      ChildViewsOf(strict, db, c, vs, rows, base[i]);
    }
    if ChildrenAgree(strict, db, c, base, vs) {
      forall j | 0 <= j < |rows| ensures Same(strict, vs[j], NodeView(db, c, rows[j])) {
        ChildLoaded(strict, db, c, base, vs, j);
      }
    }
  }

  lemma ChildLoaded(strict: bool, db: Store, c: Request, base: seq<Row>, vs: seq<View>, j: nat)
    requires db.Valid() && FieldsOf(vs) == ChildBase(db, c, base) && j < |vs| && ChildrenAgree(strict, db, c, base, vs)
    ensures Same(strict, vs[j], NodeView(db, c, ChildBase(db, c, base)[j]))
  {
    var rows := ChildBase(db, c, base);
    var i := ChildIsUsed(db, c, base, j);
    ChildViewsOf(strict, db, c, vs, rows, base[i]);
    var idx := Hits(Keys(rows, ParentAccountID), IdOf(base[i]));
    var m :| 0 <= m < |idx| && idx[m] == j;
  }

  // ---------------------------------------------------------------- nothing to load

  lemma {:induction false} FilterNothing(ps: seq<Pred>, rows: seq<Row>)
    requires forall i | 0 <= i < |rows| :: !HoldsAll(ps, rows[i])
    ensures Filter(ps, rows) == []
  {
    if rows != [] {
      FilterNothing(ps, rows[1..]);
    }
  }

  lemma NoKeysNoRows(rows: seq<Row>, q: Core, c: Column)
    ensures Fetch(rows, Traverse(Where(q, ColumnIn(c, {})))) == []
  {
    var core := Traverse(Where(q, ColumnIn(c, {})));
    forall i | 0 <= i < |rows| ensures !HoldsAll(core.predicates, rows[i]) {
      WhereHolds(q, c, {}, rows[i]);
    }
    FilterNothing(core.predicates, rows);
  }

  lemma NothingFits(table: Table, q: Core, c: Column)
    ensures FitsEdge(table, q, c, {})
  {
    NoKeysNoRows(table.rows, Unlimited(q), c);
  }

  lemma {:induction false} NoAccountsNoLinks(joins: seq<Row>, groups: seq<Row>, ps: seq<Pred>)
    ensures JoinRows(joins, groups, {}, ps) == []
  {
    if joins != [] {
      NoAccountsNoLinks(joins[1..], groups, ps);
    }
  }

  lemma NoLinksFit(db: Store, q: Core)
    ensures Fits(LinkOwners(db, q, {}), q.limit, q.offset)
  {
    AllLinksIs(db, q, {});
    NoAccountsNoLinks(db.accountGroups.rows, db.groups.rows, Traverse(q).predicates);
  }

  lemma {:induction false} NothingConforms(db: Store, q: Request)
    ensures Conforms(db, q, [])
    decreases q
  {
    assert KeySet(IdKeys([])) == {} && KeySet(Keys([], ProxyID)) == {} && KeySet(Keys([], ParentAccountID)) == {};
    if Groups in q.with { NoLinksFit(db, q.with[Groups].core); }
    if Proxy in q.with { NothingFits(db.proxies, q.with[Proxy].core, ID); }
    if UsageLogs in q.with { NothingFits(db.usageLogs, q.with[UsageLogs].core, AccountID); }
    if AccountGroups in q.with { NothingFits(db.accountGroups, q.with[AccountGroups].core, AccountID); }
    if Parent in q.with {
      var p := q.with[Parent];
      NothingFits(db.accounts, p.core, ID);
      NoKeysNoRows(db.accounts.rows, p.core, ID);
      assert ParentBase(db, p, []) == [];
      NothingConforms(db, p);
    }
    if Children in q.with {
      var c := q.with[Children];
      NothingFits(db.accounts, c.core, ParentAccountID);
      NoKeysNoRows(db.accounts.rows, WithField(c.core, ParentAccountID), ParentAccountID);
      assert ChildBase(db, c, []) == [];
      NothingConforms(db, c);
    }
  }

  // ---------------------------------------------------------------- one batch, edge by edge

  ghost predicate GroupsAgree(strict: bool, db: Store, q: Core, base: seq<Row>, links: seq<Link>) {
    forall i | 0 <= i < |base| :: SameGroups(strict, Items(GroupsOf(links, IdOf(base[i]))),
                                             Items(OwnGroups(db, q, base[i])))
  }

  ghost predicate ProxiesAgree(db: Store, q: Core, base: seq<Row>, proxies: seq<Row>) {
    forall i | 0 <= i < |base| :: ProxyOf(proxies, base[i]) == OwnProxy(db, q, base[i])
  }

  ghost predicate LogsAgree(db: Store, q: Core, base: seq<Row>, logs: seq<Row>) {
    forall i | 0 <= i < |base| :: OwnedRows(logs, IdOf(base[i])) == OwnUsageLogs(db, q, base[i])
  }

  ghost predicate AccountGroupsAgree(db: Store, q: Core, base: seq<Row>, ags: seq<Row>) {
    forall i | 0 <= i < |base| :: OwnedRows(ags, IdOf(base[i])) == OwnAccountGroups(db, q, base[i])
  }

  ghost predicate LeavesAgree(strict: bool, db: Store, q: Request, base: seq<Row>, nb: Neighbours) {
    && (Groups in q.with ==> GroupsAgree(strict, db, q.with[Groups].core, base, nb.links))
    && (Proxy in q.with ==> ProxiesAgree(db, q.with[Proxy].core, base, nb.proxies))
    && (UsageLogs in q.with ==> LogsAgree(db, q.with[UsageLogs].core, base, nb.usageLogs))
    && (AccountGroups in q.with ==> AccountGroupsAgree(db, q.with[AccountGroups].core, base, nb.accountGroups))
  }

  ghost predicate Agrees(strict: bool, db: Store, q: Request, base: seq<Row>, nb: Neighbours) {
    && LeavesAgree(strict, db, q, base, nb)
    && (Parent in q.with ==> ParentsAgree(strict, db, q.with[Parent], base, nb.parents))
    && (Children in q.with ==> ChildrenAgree(strict, db, q.with[Children], base, nb.children))
  }

  /** One node agrees, edge by edge. */
  ghost predicate NodeAgrees(strict: bool, db: Store, q: Request, f: Row, nb: Neighbours) {
    && (Groups in q.with ==>
          SameGroups(strict, Items(GroupsOf(nb.links, IdOf(f))), Items(OwnGroups(db, q.with[Groups].core, f))))
    && (Proxy in q.with ==> ProxyOf(nb.proxies, f) == OwnProxy(db, q.with[Proxy].core, f))
    && (Parent in q.with ==> SameParent(strict, ParentOf(nb.parents, f), OwnParent(db, q.with[Parent], f)))
    && (Children in q.with ==> SameAll(strict, ChildrenOf(nb.children, IdOf(f)), OwnChildren(db, q.with[Children], f)))
    && (UsageLogs in q.with ==> OwnedRows(nb.usageLogs, IdOf(f)) == OwnUsageLogs(db, q.with[UsageLogs].core, f))
    && (AccountGroups in q.with ==>
         OwnedRows(nb.accountGroups, IdOf(f)) == OwnAccountGroups(db, q.with[AccountGroups].core, f))
  }

  lemma JoinAgrees(strict: bool, db: Store, q: Request, f: Row, nb: Neighbours)
    ensures Same(strict, Join(q.with.Keys, f, nb), NodeView(db, q, f)) <==> NodeAgrees(strict, db, q, f, nb)
  {
    var v, w := Join(q.with.Keys, f, nb), NodeView(db, q, f);
    ChildSlices(strict, v.children, w.children);
  }

  lemma ChildSlices(strict: bool, s: Slice<View>, t: Slice<View>)
    ensures s.Items? && t.Items? ==> (SameChildren(strict, s, t) <==> SameAll(strict, s.items, t.items))
  {
  }

  lemma AgreesIsAll(strict: bool, db: Store, q: Request, base: seq<Row>, nb: Neighbours)
    ensures Agrees(strict, db, q, base, nb) <==> forall i | 0 <= i < |base| :: NodeAgrees(strict, db, q, base[i], nb)
  {
  }

  // ---------------------------------------------------------------- the theorem

  lemma GroupsNeed(strict: bool, db: Store, q: Core, base: seq<Row>, links: seq<Link>)
    requires GroupsAgree(strict, db, q, base, links)
    ensures GroupsAgree(false, db, q, base, links)
  {
  }

  lemma GroupsBecomeStrict(db: Store, q: Core, base: seq<Row>, links: seq<Link>)
    requires db.Valid() && GroupLinks(db, q, base) == Ok(links) && Separates(db.groups.rows, q)
    requires GroupsAgree(false, db, q, base, links)
    ensures GroupsAgree(true, db, q, base, links)
  {
    forall i | 0 <= i < |base|
      ensures SameGroups(true, Items(GroupsOf(links, IdOf(base[i]))), Items(OwnGroups(db, q, base[i])))
    {
      assert SameGroups(false, Items(GroupsOf(links, IdOf(base[i]))), Items(OwnGroups(db, q, base[i])));
      StrictGroups(db, q, base, i);
    }
  }

  lemma GroupsFit(db: Store, q: Core, base: seq<Row>, links: seq<Link>)
    requires db.Valid() && GroupLinks(db, q, base) == Ok(links)
    requires (Unwindowed(q) || PairsDistinct(db.accountGroups.rows))
    ensures GroupsAgree(false, db, q, base, links) <==> Fits(LinkOwners(db, q, KeySet(IdKeys(base))), q.limit, q.offset)
  {
    GroupsIff(db, q, base);
  }

  /** The leaf edges of a batch agree only if the batch fits ... */
  lemma LeavesNeed(strict: bool, db: Store, q: Request, base: seq<Row>, nb: Neighbours)
    requires db.Valid() && Telling(db, q) && Fetched(db, q, base, nb) && LeavesAgree(strict, db, q, base, nb)
    ensures LeavesFit(db, q, base)
  {
    if Groups in q.with {
      GroupsNeed(strict, db, q.with[Groups].core, base, nb.links);
      GroupsFit(db, q.with[Groups].core, base, nb.links);
    }
    if Proxy in q.with { ProxyIff(db, q.with[Proxy].core, base); }
    if UsageLogs in q.with { LogsIff(db, q.with[UsageLogs].core, base); }
    if AccountGroups in q.with { AccountGroupsIff(db, q.with[AccountGroups].core, base); }
  }

  /** ... and if it fits they do. */
  lemma LeavesSuffice(strict: bool, db: Store, q: Request, base: seq<Row>, nb: Neighbours)
    requires db.Valid() && Telling(db, q) && Fetched(db, q, base, nb) && LeavesFit(db, q, base)
    requires strict ==> AllSeparate(db, q)
    ensures LeavesAgree(strict, db, q, base, nb)
  {
    if Groups in q.with {
      GroupsFit(db, q.with[Groups].core, base, nb.links);
      if strict { GroupsBecomeStrict(db, q.with[Groups].core, base, nb.links); }
    }
    if Proxy in q.with { ProxyIff(db, q.with[Proxy].core, base); }
    if UsageLogs in q.with { LogsIff(db, q.with[UsageLogs].core, base); }
    if AccountGroups in q.with { AccountGroupsIff(db, q.with[AccountGroups].core, base); }
  }

  /** The leaf rows of nb are what was fetched for the batch. */
  ghost predicate Fetched(db: Store, q: Request, base: seq<Row>, nb: Neighbours) {
    && (Groups in q.with ==> GroupLinks(db, q.with[Groups].core, base) == Ok(nb.links))
    && (Proxy in q.with ==> ProxyRows(db, q.with[Proxy].core, base) == Ok(nb.proxies))
    && (UsageLogs in q.with ==> UsageLogRows(db, q.with[UsageLogs].core, base) == Ok(nb.usageLogs))
    && (AccountGroups in q.with ==> AccountGroupRows(db, q.with[AccountGroups].core, base) == Ok(nb.accountGroups))
  }

  lemma GatherParts(db: Store, q: Request, base: seq<Row>, nb: Neighbours)
    requires Gather(db, q, base) == Ok(nb)
    ensures Fetched(db, q, base, nb)
    ensures Parent in q.with ==> ParentViews(db, q.with[Parent], base) == Ok(nb.parents)
    ensures Children in q.with ==> ChildViews(db, q.with[Children], base) == Ok(nb.children)
  {
    AssembleParts(LinksPart(db, q, base), ProxiesPart(db, q, base), ParentsPart(db, q, base),
                  ChildrenPart(db, q, base), LogsPart(db, q, base), AccountGroupsPart(db, q, base), nb);
  }

  lemma AssembleParts(links: Outcome<seq<Link>>, proxies: Outcome<seq<Row>>, parents: Outcome<seq<View>>,
                      children: Outcome<seq<View>>, logs: Outcome<seq<Row>>, ags: Outcome<seq<Row>>, nb: Neighbours)
    requires Assemble(links, proxies, parents, children, logs, ags) == Ok(nb)
    ensures links == Ok(nb.links) && proxies == Ok(nb.proxies) && parents == Ok(nb.parents)
    ensures children == Ok(nb.children) && logs == Ok(nb.usageLogs) && ags == Ok(nb.accountGroups)
  {
  }

  /** Both directions for the nodes of one query, in a form that fits the recursion. */
  ghost predicate Decided(strict: bool, db: Store, q: Request, vs: seq<View>, rows: seq<Row>)
    requires |vs| == |rows|
  {
    && (Loaded(strict, db, q, vs, rows) ==> Conforms(db, q, rows))
    && (Conforms(db, q, rows) && (strict ==> AllSeparate(db, q)) ==> Loaded(strict, db, q, vs, rows))
  }

  lemma RunRows(db: Store, q: Request, core: Core)
    requires Run(db, q, core).Ok?
    ensures FieldsOf(Run(db, q, core).value) == Base(db, Traverse(core), q.with.Keys)
  {
    RunFields(db, q, core);
  }

  lemma RunJoins(db: Store, q: Request, core: Core) returns (nb: Neighbours)
    requires Run(db, q, core).Ok? && Base(db, Traverse(core), q.with.Keys) != []
    ensures Gather(db, q, Base(db, Traverse(core), q.with.Keys)) == Ok(nb)
    ensures Run(db, q, core).value == JoinAll(q.with.Keys, Base(db, Traverse(core), q.with.Keys), nb)
  {
    nb := Gather(db, q, Base(db, Traverse(core), q.with.Keys)).value;
  }

  lemma {:induction false} NodesDecided(strict: bool, db: Store, q: Request, core: Core)
    requires db.Valid() && Telling(db, q) && Run(db, q, core).Ok?
    ensures |Run(db, q, core).value| == |Base(db, Traverse(core), q.with.Keys)|
    ensures Decided(strict, db, q, Run(db, q, core).value, Base(db, Traverse(core), q.with.Keys))
    decreases q, 1
  {
    var base, vs := Base(db, Traverse(core), q.with.Keys), Run(db, q, core).value;
    RunRows(db, q, core);
    if base == [] {
      NothingConforms(db, q);
    } else {
      var nb := RunJoins(db, q, core);
      BatchDecided(strict, db, q, base, nb);
      JoinedDecided(strict, db, q, base, nb, vs);
    }
  }

  lemma JoinedDecided(strict: bool, db: Store, q: Request, base: seq<Row>, nb: Neighbours, vs: seq<View>)
    requires vs == JoinAll(q.with.Keys, base, nb)
    ensures Loaded(strict, db, q, vs, base) <==> Agrees(strict, db, q, base, nb)
  {
    AgreesIsAll(strict, db, q, base, nb);
    forall i | 0 <= i < |base| ensures Same(strict, vs[i], NodeView(db, q, base[i])) <==> NodeAgrees(strict, db, q,
        base[i], nb) {
      JoinAgrees(strict, db, q, base[i], nb);
    }
  }

  lemma {:induction false} BatchDecided(strict: bool, db: Store, q: Request, base: seq<Row>, nb: Neighbours)
    requires db.Valid() && Telling(db, q) && Gather(db, q, base) == Ok(nb)
    ensures Agrees(strict, db, q, base, nb) ==> Conforms(db, q, base)
    ensures Conforms(db, q, base) && (strict ==> AllSeparate(db, q)) ==> Agrees(strict, db, q, base, nb)
    decreases q, 0
  {
    GatherParts(db, q, base, nb);
    var separate := strict ==> AllSeparate(db, q);
    if Parent in q.with {
      ParentsDecided(strict, db, q.with[Parent], base, nb.parents);
    }
    if Children in q.with {
      ChildrenDecided(strict, db, q.with[Children], base, nb.children);
    }
    assert EdgeDecided(LeavesAgree(strict, db, q, base, nb), LeavesFit(db, q, base), separate) by {
      LeavesDecided(strict, db, q, base, nb);
    }
    PartsDecided(strict, db, q, base, nb);
  }

  /** The three parts together. */
  lemma PartsDecided(strict: bool, db: Store, q: Request, base: seq<Row>, nb: Neighbours)
    requires EdgeDecided(LeavesAgree(strict, db, q, base, nb), LeavesFit(db, q, base), strict ==> AllSeparate(db, q))
    requires Parent in q.with ==> EdgeDecided(ParentsAgree(strict, db, q.with[Parent], base, nb.parents),
                                              ParentsFit(db, q.with[Parent], base), strict ==> AllSeparate(db,
                                                  q.with[Parent]))
    requires Children in q.with ==> EdgeDecided(ChildrenAgree(strict, db, q.with[Children], base, nb.children),
                                                ChildrenFit(db, q.with[Children], base), strict ==> AllSeparate(db,
                                                    q.with[Children]))
    ensures Agrees(strict, db, q, base, nb) ==> Conforms(db, q, base)
    ensures Conforms(db, q, base) && (strict ==> AllSeparate(db, q)) ==> Agrees(strict, db, q, base, nb)
  {
  }

  predicate EdgeDecided(agree: bool, fit: bool, separate: bool) {
    (agree ==> fit) && (fit && separate ==> agree)
  }

  lemma LeavesDecided(strict: bool, db: Store, q: Request, base: seq<Row>, nb: Neighbours)
    requires db.Valid() && Telling(db, q) && Fetched(db, q, base, nb)
    ensures LeavesAgree(strict, db, q, base, nb) ==> LeavesFit(db, q, base)
    ensures LeavesFit(db, q, base) && (strict ==> AllSeparate(db, q)) ==> LeavesAgree(strict, db, q, base, nb)
  {
    if LeavesAgree(strict, db, q, base, nb) {
      LeavesNeed(strict, db, q, base, nb);
    }
    if LeavesFit(db, q, base) && (strict ==> AllSeparate(db, q)) {
      LeavesSuffice(strict, db, q, base, nb);
    }
  }

  lemma {:induction false} ParentsDecided(strict: bool, db: Store, p: Request, base: seq<Row>, vs: seq<View>)
    requires db.Valid() && Telling(db, p) && ParentViews(db, p, base) == Ok(vs)
    ensures ParentsAgree(strict, db, p, base, vs) ==> ParentsFit(db, p, base)
    ensures ParentsFit(db, p, base) && (strict ==> AllSeparate(db, p)) ==> ParentsAgree(strict, db, p, base, vs)
    decreases p, 2
  {
    var fks := KeySet(Keys(base, ParentAccountID));
    ParentRowsIff(db, p, base);
    if fks == {} {
      NoKeysNoRows(db.accounts.rows, p.core, ID);
      NothingConforms(db, p);
    } else {
      NodesDecided(strict, db, p, Where(p.core, ColumnIn(ID, fks)));
      RunRows(db, p, Where(p.core, ColumnIn(ID, fks)));
    }
    ParentsIff(strict, db, p, base, vs);
  }

  lemma {:induction false} ChildrenDecided(strict: bool, db: Store, c: Request, base: seq<Row>, vs: seq<View>)
    requires db.Valid() && Telling(db, c) && ChildViews(db, c, base) == Ok(vs)
    ensures ChildrenAgree(strict, db, c, base, vs) ==> ChildrenFit(db, c, base)
    ensures ChildrenFit(db, c, base) && (strict ==> AllSeparate(db, c)) ==> ChildrenAgree(strict, db, c, base, vs)
    decreases c, 2
  {
    var core := Where(WithField(c.core, ParentAccountID), ColumnIn(ParentAccountID, KeySet(IdKeys(base))));
    ChildRowsIff(db, c, base);
    NodesDecided(strict, db, c, core);
    RunRows(db, c, core);
    ChildrenIff(strict, db, c, base, vs);
  }

  /** A successful batched load gives what loading every edge of every node separately gives, at every
      depth of the request tree and up to the order of groups, if and only if at every edge the batch
      fits the window of the sub-query. */
  lemma BatchIsPerNodeIff(db: Store, q: Request, core: Core)
    requires db.Valid() && Telling(db, q) && Run(db, q, core).Ok?
    ensures SameAll(false, Run(db, q, core).value, Nodes(db, q, core)) <==>
              Conforms(db, q, Base(db, Traverse(core), q.with.Keys))
  {
    NodesDecided(false, db, q, core);
    LoadedIsSameAll(false, db, q, core, Run(db, q, core).value);
  }

  /** If moreover the order terms of every groups sub-query separate its groups, the trees are equal. */
  lemma BatchEqualsPerNode(db: Store, q: Request, core: Core)
    requires db.Valid() && Telling(db, q) && Run(db, q, core).Ok?
    requires Conforms(db, q, Base(db, Traverse(core), q.with.Keys)) && AllSeparate(db, q)
    ensures Run(db, q, core).value == Nodes(db, q, core)
  {
    NodesDecided(true, db, q, core);
    LoadedIsSameAll(true, db, q, core, Run(db, q, core).value);
    var vs, ws := Run(db, q, core).value, Nodes(db, q, core);
    forall i | 0 <= i < |vs| ensures vs[i] == ws[i] {
      StrictIsEqual(vs[i], ws[i]);
    }
  }

  // ---------------------------------------------------------------- requests without windows

  /** No sub-query of the tree has LIMIT or OFFSET. */
  ghost predicate NoWindows(q: Request)
    decreases q
  {
    && (forall e | e in q.with :: Unwindowed(q.with[e].core))
    && (Parent in q.with ==> NoWindows(q.with[Parent]))
    && (Children in q.with ==> NoWindows(q.with[Children]))
  }

  lemma EdgeWithoutWindow(table: Table, q: Core, c: Column, ks: set<int>)
    requires Unwindowed(q)
    ensures FitsEdge(table, q, c, ks)
  {
  }

  lemma {:induction false} NoWindowsConform(db: Store, q: Request, base: seq<Row>)
    requires NoWindows(q)
    ensures Conforms(db, q, base)
    decreases q
  {
    var ids := KeySet(IdKeys(base));
    if Groups in q.with {
      var core := q.with[Groups].core;
      UnwindowedFits(LinkOwners(db, core, ids), core.limit, core.offset);
    }
    if Proxy in q.with { EdgeWithoutWindow(db.proxies, q.with[Proxy].core, ID, KeySet(Keys(base, ProxyID))); }
    if UsageLogs in q.with { EdgeWithoutWindow(db.usageLogs, q.with[UsageLogs].core, AccountID, ids); }
    if AccountGroups in q.with { EdgeWithoutWindow(db.accountGroups, q.with[AccountGroups].core, AccountID, ids); }
    if Parent in q.with {
      EdgeWithoutWindow(db.accounts, q.with[Parent].core, ID, KeySet(Keys(base, ParentAccountID)));
      NoWindowsConform(db, q.with[Parent], ParentBase(db, q.with[Parent], base));
    }
    if Children in q.with {
      EdgeWithoutWindow(db.accounts, q.with[Children].core, ParentAccountID, ids);
      NoWindowsConform(db, q.with[Children], ChildBase(db, q.with[Children], base));
    }
  }

  lemma {:induction false} NoWindowsTell(db: Store, q: Request)
    requires NoWindows(q)
    ensures Telling(db, q)
    decreases q
  {
    if Parent in q.with { NoWindowsTell(db, q.with[Parent]); }
    if Children in q.with { NoWindowsTell(db, q.with[Children]); }
  }

  /** Without windows a load whose sub-queries are all accepted succeeds and is the load per node;
      where the groups are separated the two trees are equal. */
  lemma BatchIsPerNode(db: Store, q: Request, core: Core)
    requires db.Valid() && Prepare(core, db.accounts.columns).Ok? && Projection.AllAnswered(db, q) && NoWindows(q)
    ensures Run(db, q, core).Ok? && SameAll(false, Run(db, q, core).value, Nodes(db, q, core))
    ensures AllSeparate(db, q) ==> Run(db, q, core).value == Nodes(db, q, core)
  {
    Projection.SelectionKeepsGraph(db, q, core);
    NoWindowsTell(db, q);
    NoWindowsConform(db, q, Base(db, Traverse(core), q.with.Keys));
    BatchIsPerNodeIff(db, q, core);
    if AllSeparate(db, q) {
      BatchEqualsPerNode(db, q, core);
    }
  }
}
