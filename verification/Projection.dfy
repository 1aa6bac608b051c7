/** Field selection never breaks edges: whatever columns are selected, on the base query or on
    any sub-query, the loaded graph is the one that selecting all columns gives. */
module Projection {
  import opened Schema
  import opened Store
  import opened EagerSpec

  /** The request with every field selection removed. */
  ghost function Bare(q: Request): Request
    decreases q
  {
    Request(BareCore(q.core), map e | e in q.with :: Bare(q.with[e]))
  }

  function BareCore(core: Core): Core {
    core.(fields := [])
  }

  /** Every sub-query is accepted by prepareQuery. */
  ghost predicate AllAnswered(db: Store, q: Request)
    decreases q
  {
    && (Groups in q.with ==> Prepare(q.with[Groups].core, db.groups.columns).Ok?)
    && (Proxy in q.with ==> Prepare(q.with[Proxy].core, db.proxies.columns).Ok?)
    && (UsageLogs in q.with ==> Prepare(q.with[UsageLogs].core, db.usageLogs.columns).Ok?)
    && (AccountGroups in q.with ==> Prepare(q.with[AccountGroups].core, db.accountGroups.columns).Ok?)
    && (Parent in q.with ==> Prepare(q.with[Parent].core, db.accounts.columns).Ok? && AllAnswered(db, q.with[Parent]))
    && (Children in q.with ==>
         Prepare(q.with[Children].core, db.accounts.columns).Ok? && AllAnswered(db, q.with[Children]))
  }

  ghost predicate SameIds(s: Slice<Row>, t: Slice<Row>) {
    match (s, t)
    case (Nil, Nil) => true
    case (Items(a), Items(b)) => IdKeys(a) == IdKeys(b)
    case _ => false
  }

  ghost predicate SameOwners(s: Slice<Row>, t: Slice<Row>) {
    match (s, t)
    case (Nil, Nil) => true
    case (Items(a), Items(b)) => Fks(a, AccountID) == Fks(b, AccountID)
    case _ => false
  }

  ghost predicate SameId(p: Option<Row>, r: Option<Row>) {
    (p.None? <==> r.None?) && (p.Some? && r.Some? ==> IdOf(p.value) == IdOf(r.value))
  }

  /** The same graph: equal IDs and equal edges everywhere, whatever other fields were scanned. */
  ghost predicate SameGraph(v: View, w: View)
    decreases v
  {
    && IdOf(v.fields) == IdOf(w.fields) && v.loaded == w.loaded
    && SameIds(v.groups, w.groups)
    && SameId(v.proxy, w.proxy)
    && (v.parent.None? <==> w.parent.None?)
    && (v.parent.Some? && w.parent.Some? ==> SameGraph(v.parent.value, w.parent.value))
    && (v.children.Nil? <==> w.children.Nil?)
    && (v.children.Items? && w.children.Items? ==>
          |v.children.items| == |w.children.items|
          && forall i | 0 <= i < |v.children.items| :: SameGraph(v.children.items[i], w.children.items[i]))
    && SameIds(v.usageLogs, w.usageLogs) && SameOwners(v.accountGroups, w.accountGroups)
  }

  ghost predicate SameGraphs(vs: seq<View>, ws: seq<View>) {
    |vs| == |ws| && forall i | 0 <= i < |vs| :: SameGraph(vs[i], ws[i])
  }

  // ---------------------------------------------------------------- scanned keys

  lemma ScanSame(rows: seq<Row>, a: seq<Column>, b: seq<Column>, c: Column)
    requires c in a && c in b
    ensures Keys(ScanRows(rows, a), c) == Keys(ScanRows(rows, b), c)
    ensures Fks(ScanRows(rows, a), c) == Fks(ScanRows(rows, b), c)
    ensures c == ID ==> IdKeys(ScanRows(rows, a)) == IdKeys(ScanRows(rows, b))
  {
  }

  lemma PrepareBare(core: Core, columns: seq<Column>)
    requires Prepare(core, columns).Ok?
    ensures Prepare(BareCore(core), columns) == Ok(BareCore(Prepare(core, columns).value))
  {
  }

  /** Both requests see the same rows; only the scanned columns differ. */
  lemma BaseSame(db: Store, core: Core, edges: set<Edge>)
    requires db.Valid()
    ensures var a, b := Base(db, core, edges), Base(db, BareCore(core), edges);
      && IdKeys(a) == IdKeys(b)
      && (Proxy in edges ==> Keys(a, ProxyID) == Keys(b, ProxyID))
      && (Parent in edges || ParentAccountID in core.fields || core.fields == [] ==>
           Keys(a, ParentAccountID) == Keys(b, ParentAccountID))
  {
    var rows := Fetch(db.accounts.rows, core);
    var a, b := AccountSelection(core, edges, db.accounts.columns), AccountSelection(BareCore(core), edges,
        db.accounts.columns);
    ScanSame(rows, a, b, ID);
    if Proxy in edges { ScanSame(rows, a, b, ProxyID); }
    if Parent in edges || ParentAccountID in core.fields || core.fields == [] { ScanSame(rows, a, b, ParentAccountID); }
  }

  // ---------------------------------------------------------------- leaf edges

  lemma PickSame(a: seq<Row>, b: seq<Row>, idx: seq<nat>)
    requires |a| == |b| && forall j | 0 <= j < |idx| :: idx[j] < |a|
    ensures IdKeys(a) == IdKeys(b) ==> IdKeys(Pick(a, idx)) == IdKeys(Pick(b, idx))
    ensures Fks(a, AccountID) == Fks(b, AccountID) ==> Fks(Pick(a, idx), AccountID) == Fks(Pick(b, idx), AccountID)
  {
    if IdKeys(a) == IdKeys(b) {
      forall j | 0 <= j < |idx| ensures IdKeys(Pick(a, idx))[j] == IdKeys(Pick(b, idx))[j] {
        assert IdKeys(a)[idx[j]] == IdKeys(b)[idx[j]];
      }
    }
    if Fks(a, AccountID) == Fks(b, AccountID) {
      forall j | 0 <= j < |idx| ensures Fks(Pick(a, idx), AccountID)[j] == Fks(Pick(b, idx), AccountID)[j] {
        assert Fks(a, AccountID)[idx[j]] == Fks(b, AccountID)[idx[j]];
      }
    }
  }

  /** The rows of one leaf sub-query, with and without its field selection. */
  lemma LeafSame(table: Table, core: Core, cols: seq<Column>, c: Column)
    requires Prepare(core, table.columns).Ok? && c in cols && c in table.columns
    ensures LeafAll(table, core, cols).Ok? && LeafAll(table, BareCore(core), table.columns).Ok?
    ensures var a, b := LeafAll(table, core, cols).value, LeafAll(table, BareCore(core), table.columns).value;
            && |a| == |b|
            && Fks(a, c) == Fks(b, c)
            && (c == ID ==> IdKeys(a) == IdKeys(b))
  {
    PrepareBare(core, table.columns);
    var rows := Fetch(table.rows, Prepare(core, table.columns).value);
    ScanSame(rows, cols, table.columns, c);
  }

  lemma ProxySame(db: Store, q: Core, base: seq<Row>, base': seq<Row>, i: nat)
    requires db.Valid() && Prepare(q, db.proxies.columns).Ok?
    requires i < |base| == |base'| && Keys(base, ProxyID) == Keys(base', ProxyID)
    ensures ProxyRows(db, q, base).Ok? && ProxyRows(db, BareCore(q), base').Ok?
    ensures SameId(ProxyOf(ProxyRows(db, q, base).value, base[i]),
                   ProxyOf(ProxyRows(db, BareCore(q), base').value, base'[i]))
  {
    var fks := KeySet(Keys(base, ProxyID));
    var core := Where(q, ColumnIn(ID, fks));
    LeafSame(db.proxies, core, IdColumns(q.fields, db.proxies.columns), ID);
    assert Keys(base, ProxyID)[i] == Keys(base', ProxyID)[i];
    assert Where(BareCore(q), ColumnIn(ID, fks)) == BareCore(core);
    ProxyOfSame(ProxyRows(db, q, base).value, ProxyRows(db, BareCore(q), base').value, base[i], base'[i]);
  }

  lemma ProxyOfSame(a: seq<Row>, b: seq<Row>, f: Row, f': Row)
    requires IdKeys(a) == IdKeys(b) && KeyOf(f, ProxyID) == KeyOf(f', ProxyID)
    ensures SameId(ProxyOf(a, f), ProxyOf(b, f'))
  {
    var k := LastHit(IdKeys(a), KeyOf(f, ProxyID));
    if k >= 0 {
      assert IdKeys(a)[k] == IdKeys(b)[k];
    }
  }

  lemma OwnedSame(a: seq<Row>, b: seq<Row>, id: int)
    requires |a| == |b| && Fks(a, AccountID) == Fks(b, AccountID)
    ensures IdKeys(a) == IdKeys(b) ==> IdKeys(OwnedRows(a, id)) == IdKeys(OwnedRows(b, id))
    ensures Fks(OwnedRows(a, id), AccountID) == Fks(OwnedRows(b, id), AccountID)
  {
    PickSame(a, b, Hits(Fks(a, AccountID), id));
  }

  lemma LogsSame(db: Store, q: Core, base: seq<Row>, base': seq<Row>, i: nat)
    requires db.Valid() && Prepare(q, db.usageLogs.columns).Ok? && i < |base| == |base'|
    requires IdKeys(base) == IdKeys(base')
    ensures UsageLogRows(db, q, base).Ok? && UsageLogRows(db, BareCore(q), base').Ok?
    ensures IdKeys(OwnedRows(UsageLogRows(db, q, base).value, IdOf(base[i])))
         == IdKeys(OwnedRows(UsageLogRows(db, BareCore(q), base').value, IdOf(base'[i])))
  {
    var q' := WithField(q, AccountID);
    var p := ColumnIn(AccountID, KeySet(IdKeys(base)));
    var cols := IdColumns(q'.fields, db.usageLogs.columns);
    LeafSame(db.usageLogs, Where(q', p), cols, ID);
    LeafSame(db.usageLogs, Where(q', p), cols, AccountID);
    assert Where(WithField(BareCore(q), AccountID), p) == BareCore(Where(q', p));
    assert IdKeys(base)[i] == IdKeys(base')[i];
    OwnedSame(UsageLogRows(db, q, base).value, UsageLogRows(db, BareCore(q), base').value, IdOf(base[i]));
  }

  lemma AccountGroupsSame(db: Store, q: Core, base: seq<Row>, base': seq<Row>, i: nat)
    requires db.Valid() && Prepare(q, db.accountGroups.columns).Ok? && i < |base| == |base'|
    requires IdKeys(base) == IdKeys(base')
    ensures AccountGroupRows(db, q, base).Ok? && AccountGroupRows(db, BareCore(q), base').Ok?
    ensures Fks(OwnedRows(AccountGroupRows(db, q, base).value, IdOf(base[i])), AccountID)
         == Fks(OwnedRows(AccountGroupRows(db, BareCore(q), base').value, IdOf(base'[i])), AccountID)
  {
    var q' := WithField(q, AccountID);
    var p := ColumnIn(AccountID, KeySet(IdKeys(base)));
    LeafSame(db.accountGroups, Where(q', p), PlainColumns(q'.fields, db.accountGroups.columns), AccountID);
    assert Where(WithField(BareCore(q), AccountID), p) == BareCore(Where(q', p));
    assert IdKeys(base)[i] == IdKeys(base')[i];
    OwnedSame(AccountGroupRows(db, q, base).value, AccountGroupRows(db, BareCore(q), base').value, IdOf(base[i]));
  }

  lemma {:induction false} JoinedSame(a: seq<Link>, b: seq<Link>, firsts: seq<nat>, n: nat, account: int)
    requires |a| == |b| && n <= |firsts| && forall j | 0 <= j < |firsts| :: firsts[j] < |a|
    requires forall j | 0 <= j < |a| :: a[j].account == b[j].account && IdOf(a[j].group) == IdOf(b[j].group)
    ensures Joined(a, firsts, n, account) == Joined(b, firsts, n, account)
  {
    if n != 0 {
      JoinedSame(a, b, firsts, n - 1, account);
      var g := IdOf(a[firsts[n - 1]].group);
      assert Linked(a, account, g) <==> Linked(b, account, g);
    }
  }

  lemma GroupsSame(db: Store, q: Core, base: seq<Row>, base': seq<Row>, i: nat)
    requires db.Valid() && Prepare(q, db.groups.columns).Ok? && i < |base| == |base'| && IdKeys(base) == IdKeys(base')
    ensures GroupLinks(db, q, base).Ok? && GroupLinks(db, BareCore(q), base').Ok?
    ensures IdKeys(GroupsOf(GroupLinks(db, q, base).value, IdOf(base[i])))
         == IdKeys(GroupsOf(GroupLinks(db, BareCore(q), base').value, IdOf(base'[i])))
  {
    PrepareBare(q, db.groups.columns);
    assert IdKeys(base)[i] == IdKeys(base')[i];
    GroupsOfSame(GroupLinks(db, q, base).value, GroupLinks(db, BareCore(q), base').value, IdOf(base[i]));
  }

  lemma GroupsOfSame(a: seq<Link>, b: seq<Link>, account: int)
    requires |a| == |b|
    requires forall j | 0 <= j < |a| :: a[j].account == b[j].account && IdOf(a[j].group) == IdOf(b[j].group)
    ensures IdKeys(GroupsOf(a, account)) == IdKeys(GroupsOf(b, account))
  {
    assert GroupIds(a) == GroupIds(b);
    var firsts := Firsts(GroupIds(a));
    JoinedSame(a, b, firsts, |firsts|, account);
    assert IdKeys(Members(a)) == IdKeys(Members(b));
    PickSame(Members(a), Members(b), Joined(a, firsts, |firsts|, account));
  }

  // ---------------------------------------------------------------- the theorem

  lemma GraphPick(vs: seq<View>, ws: seq<View>, idx: seq<nat>)
    requires SameGraphs(vs, ws) && forall j | 0 <= j < |idx| :: idx[j] < |vs|
    ensures SameGraphs(Pick(vs, idx), Pick(ws, idx))
  {
  }

  lemma GraphIds(vs: seq<View>, ws: seq<View>)
    requires SameGraphs(vs, ws)
    ensures IdKeys(FieldsOf(vs)) == IdKeys(FieldsOf(ws))
  {
    forall i | 0 <= i < |vs| ensures IdKeys(FieldsOf(vs))[i] == IdKeys(FieldsOf(ws))[i] {
      assert SameGraph(vs[i], ws[i]);
    }
  }

  lemma GraphParent(vs: seq<View>, ws: seq<View>, f: Row, f': Row)
    requires SameGraphs(vs, ws) && KeyOf(f, ParentAccountID) == KeyOf(f', ParentAccountID)
    ensures SameParent(ParentOf(vs, f), ParentOf(ws, f'))
  {
    GraphIds(vs, ws);
  }

  ghost predicate SameParent(p: Option<View>, r: Option<View>) {
    (p.None? <==> r.None?) && (p.Some? && r.Some? ==> SameGraph(p.value, r.value))
  }

  /** Any field selection anywhere in the request leaves the loaded graph unchanged. */
  lemma {:induction false} SelectionKeepsGraph(db: Store, q: Request, core: Core)
    requires db.Valid() && Prepare(core, db.accounts.columns).Ok? && AllAnswered(db, q)
    ensures Run(db, q, core).Ok? && Run(db, Bare(q), BareCore(core)).Ok?
    ensures SameGraphs(Run(db, q, core).value, Run(db, Bare(q), BareCore(core)).value)
    decreases q, 1
  {
    PrepareBare(core, db.accounts.columns);
    var prepared, edges := Prepare(core, db.accounts.columns).value, q.with.Keys;
    var base, base' := Base(db, prepared, edges), Base(db, BareCore(prepared), edges);
    BaseSame(db, prepared, edges);
    assert Bare(q).with.Keys == edges;
    if base == [] {
      RunNothing(db, q, core, prepared);
      RunNothing(db, Bare(q), BareCore(core), BareCore(prepared));
    } else {
      var nb, nb' := GatherSame(db, q, base, base');
      RunIs(db, q, core, prepared, nb);
      RunIs(db, Bare(q), BareCore(core), BareCore(prepared), nb');
      JoinAllSame(edges, base, base', nb, nb');
    }
  }

  lemma RunNothing(db: Store, q: Request, core: Core, prepared: Core)
    requires Prepare(core, db.accounts.columns) == Ok(prepared) && Base(db, prepared, q.with.Keys) == []
    ensures Run(db, q, core) == Ok([])
  {
  }

  lemma JoinAllSame(edges: set<Edge>, base: seq<Row>, base': seq<Row>, nb: Neighbours, nb': Neighbours)
    requires |base| == |base'|
    requires forall i | 0 <= i < |base| :: SameGraph(Join(edges, base[i], nb), Join(edges, base'[i], nb'))
    ensures SameGraphs(JoinAll(edges, base, nb), JoinAll(edges, base', nb'))
  {
  }

  lemma {:induction false} ParentsSame(db: Store, p: Request, base: seq<Row>, base': seq<Row>)
    returns (vs: seq<View>, ws: seq<View>)
    requires db.Valid() && Prepare(p.core, db.accounts.columns).Ok? && AllAnswered(db, p)
    requires |base| == |base'| && Keys(base, ParentAccountID) == Keys(base', ParentAccountID)
    ensures ParentViews(db, p, base) == Ok(vs) && ParentViews(db, Bare(p), base') == Ok(ws)
    ensures forall i | 0 <= i < |base| :: SameParent(ParentOf(vs, base[i]), ParentOf(ws, base'[i]))
    decreases p, 2
  {
    var fks := KeySet(Keys(base, ParentAccountID));
    var core := Where(p.core, ColumnIn(ID, fks));
    SelectionKeepsGraph(db, p, core);
    vs, ws := ParentViews(db, p, base).value, ParentViews(db, Bare(p), base').value;
    assert SameGraphs(vs, ws);
    forall i | 0 <= i < |base| ensures SameParent(ParentOf(vs, base[i]), ParentOf(ws, base'[i])) {
      assert Keys(base, ParentAccountID)[i] == Keys(base', ParentAccountID)[i];
      GraphParent(vs, ws, base[i], base'[i]);
    }
  }

  /** Both runs scan the same parent keys. */
  lemma RunKeysSame(db: Store, c: Request, core: Core)
    requires db.Valid() && Run(db, c, core).Ok? && Run(db, Bare(c), BareCore(core)).Ok?
    requires ParentAccountID in core.fields || core.fields == []
    ensures Keys(FieldsOf(Run(db, c, core).value), ParentAccountID) ==
              Keys(FieldsOf(Run(db, Bare(c), BareCore(core)).value), ParentAccountID)
  {
    PrepareBare(core, db.accounts.columns);
    RunFields(db, c, core);
    RunFields(db, Bare(c), BareCore(core));
    assert Bare(c).with.Keys == c.with.Keys;
    BaseSame(db, Prepare(core, db.accounts.columns).value, c.with.Keys);
  }

  lemma {:induction false} ChildrenSame(db: Store, c: Request, base: seq<Row>, base': seq<Row>)
    returns (vs: seq<View>, ws: seq<View>)
    requires db.Valid() && Prepare(c.core, db.accounts.columns).Ok? && AllAnswered(db, c)
    requires |base| == |base'| && IdKeys(base) == IdKeys(base')
    ensures ChildViews(db, c, base) == Ok(vs) && ChildViews(db, Bare(c), base') == Ok(ws)
    ensures forall i | 0 <= i < |base| :: SameGraphs(ChildrenOf(vs, IdOf(base[i])), ChildrenOf(ws, IdOf(base'[i])))
    decreases c, 2
  {
    var core := Where(WithField(c.core, ParentAccountID), ColumnIn(ParentAccountID, KeySet(IdKeys(base))));
    SelectionKeepsGraph(db, c, core);
    vs, ws := ChildViews(db, c, base).value, ChildViews(db, Bare(c), base').value;
    RunKeysSame(db, c, core);
    forall i | 0 <= i < |base| ensures SameGraphs(ChildrenOf(vs, IdOf(base[i])), ChildrenOf(ws, IdOf(base'[i]))) {
      assert IdKeys(base)[i] == IdKeys(base')[i];
      GraphPick(vs, ws, Hits(Keys(FieldsOf(vs), ParentAccountID), IdOf(base[i])));
    }
  }

  lemma LeafPartsOk(db: Store, q: Request, base: seq<Row>, base': seq<Row>)
    requires db.Valid() && AllAnswered(db, q) && 0 < |base| == |base'|
    requires IdKeys(base) == IdKeys(base') && (Proxy in q.with ==> Keys(base, ProxyID) == Keys(base', ProxyID))
    ensures LinksPart(db, q, base).Ok? && ProxiesPart(db, q, base).Ok? && LogsPart(db, q, base).Ok?
    ensures AccountGroupsPart(db, q, base).Ok?
    ensures LinksPart(db, Bare(q), base').Ok? && ProxiesPart(db, Bare(q), base').Ok?
    ensures LogsPart(db, Bare(q), base').Ok? && AccountGroupsPart(db, Bare(q), base').Ok?
  {
    if Groups in q.with { GroupsSame(db, q.with[Groups].core, base, base', 0); }
    if Proxy in q.with { ProxySame(db, q.with[Proxy].core, base, base', 0); }
    if UsageLogs in q.with { LogsSame(db, q.with[UsageLogs].core, base, base', 0); }
    if AccountGroups in q.with { AccountGroupsSame(db, q.with[AccountGroups].core, base, base', 0); }
  }

  lemma {:induction false} GatherSame(db: Store, q: Request, base: seq<Row>, base': seq<Row>)
    returns (nb: Neighbours, nb': Neighbours)
    requires db.Valid() && AllAnswered(db, q) && 0 < |base| == |base'|
    requires IdKeys(base) == IdKeys(base') && (Proxy in q.with ==> Keys(base, ProxyID) == Keys(base', ProxyID))
    requires Parent in q.with ==> Keys(base, ParentAccountID) == Keys(base', ParentAccountID)
    ensures Gather(db, q, base) == Ok(nb) && Gather(db, Bare(q), base') == Ok(nb')
    ensures forall i | 0 <= i < |base| :: SameGraph(Join(q.with.Keys, base[i], nb), Join(q.with.Keys, base'[i], nb'))
    decreases q, 0
  {
    var parents, parents', children, children' := [], [], [], [];
    if Parent in q.with {
      parents, parents' := ParentsSame(db, q.with[Parent], base, base');
    }
    if Children in q.with {
      children, children' := ChildrenSame(db, q.with[Children], base, base');
    }
    nb, nb' := GatherBoth(db, q, base, base', parents, parents', children, children');
  }

  /** The parents loaded for both batches. */
  ghost predicate ParentsLoaded(db: Store, q: Request, base: seq<Row>, base': seq<Row>, vs: seq<View>, ws: seq<View>)
    requires |base| == |base'|
  {
    if Parent in q.with then
      && ParentViews(db, q.with[Parent], base) == Ok(vs) && ParentViews(db, Bare(q.with[Parent]), base') == Ok(ws)
      && forall i | 0 <= i < |base| :: SameParent(ParentOf(vs, base[i]), ParentOf(ws, base'[i]))
    else vs == [] && ws == []
  }

  ghost predicate ChildrenLoaded(db: Store, q: Request, base: seq<Row>, base': seq<Row>, vs: seq<View>, ws: seq<View>)
    requires |base| == |base'|
  {
    if Children in q.with then
      && ChildViews(db, q.with[Children], base) == Ok(vs) && ChildViews(db, Bare(q.with[Children]), base') == Ok(ws)
      && forall i | 0 <= i < |base| :: SameGraphs(ChildrenOf(vs, IdOf(base[i])), ChildrenOf(ws, IdOf(base'[i])))
    else vs == [] && ws == []
  }

  lemma AccountParts(db: Store, q: Request, base: seq<Row>, base': seq<Row>,
                     vs: seq<View>, ws: seq<View>, cs: seq<View>, ds: seq<View>)
    requires |base| == |base'| && ParentsLoaded(db, q, base, base', vs, ws)
    requires ChildrenLoaded(db, q, base, base', cs, ds)
    ensures ParentsPart(db, q, base) == Ok(vs) && ParentsPart(db, Bare(q), base') == Ok(ws)
    ensures ChildrenPart(db, q, base) == Ok(cs) && ChildrenPart(db, Bare(q), base') == Ok(ds)
  {
  }

  lemma GatherBoth(db: Store, q: Request, base: seq<Row>, base': seq<Row>,
                   vs: seq<View>, ws: seq<View>, cs: seq<View>, ds: seq<View>) returns (nb: Neighbours, nb': Neighbours)
    requires db.Valid() && AllAnswered(db, q) && 0 < |base| == |base'|
    requires IdKeys(base) == IdKeys(base') && (Proxy in q.with ==> Keys(base, ProxyID) == Keys(base', ProxyID))
    requires ParentsLoaded(db, q, base, base', vs, ws) && ChildrenLoaded(db, q, base, base', cs, ds)
    ensures Gather(db, q, base) == Ok(nb) && Gather(db, Bare(q), base') == Ok(nb')
    ensures forall i | 0 <= i < |base| :: SameGraph(Join(q.with.Keys, base[i], nb), Join(q.with.Keys, base'[i], nb'))
  {
    LeafPartsOk(db, q, base, base');
    AccountParts(db, q, base, base', vs, ws, cs, ds);
    nb := GatherWith(db, q, base, vs, cs);
    nb' := GatherWith(db, Bare(q), base', ws, ds);
    LeavesFetched(db, q, base, base', nb, nb');
    assert Related(q, base, base', nb, nb');
    JoinsSame(db, q, base, base', nb, nb');
  }

  /** The leaf rows of both batches. */
  ghost predicate Fetched(db: Store, q: Request, base: seq<Row>, base': seq<Row>, nb: Neighbours, nb': Neighbours) {
    && (Groups in q.with ==>
          && GroupLinks(db, q.with[Groups].core, base) == Ok(nb.links)
          && GroupLinks(db, BareCore(q.with[Groups].core), base') == Ok(nb'.links))
    && (Proxy in q.with ==>
          && ProxyRows(db, q.with[Proxy].core, base) == Ok(nb.proxies)
          && ProxyRows(db, BareCore(q.with[Proxy].core), base') == Ok(nb'.proxies))
    && (UsageLogs in q.with ==>
          && UsageLogRows(db, q.with[UsageLogs].core, base) == Ok(nb.usageLogs)
          && UsageLogRows(db, BareCore(q.with[UsageLogs].core), base') == Ok(nb'.usageLogs))
    && (AccountGroups in q.with ==>
          && AccountGroupRows(db, q.with[AccountGroups].core, base) == Ok(nb.accountGroups)
          && AccountGroupRows(db, BareCore(q.with[AccountGroups].core), base') == Ok(nb'.accountGroups))
  }

  /** The parents and children of both batches. */
  ghost predicate Related(q: Request, base: seq<Row>, base': seq<Row>, nb: Neighbours, nb': Neighbours)
    requires |base| == |base'|
  {
    && (Parent in q.with ==>
          forall i | 0 <= i < |base| :: SameParent(ParentOf(nb.parents, base[i]), ParentOf(nb'.parents, base'[i])))
    && (Children in q.with ==>
          forall i | 0 <= i < |base| ::
            SameGraphs(ChildrenOf(nb.children, IdOf(base[i])), ChildrenOf(nb'.children, IdOf(base'[i]))))
  }

  lemma LeavesFetched(db: Store, q: Request, base: seq<Row>, base': seq<Row>, nb: Neighbours, nb': Neighbours)
    requires LinksPart(db, q, base) == Ok(nb.links) && LinksPart(db, Bare(q), base') == Ok(nb'.links)
    requires ProxiesPart(db, q, base) == Ok(nb.proxies) && ProxiesPart(db, Bare(q), base') == Ok(nb'.proxies)
    requires LogsPart(db, q, base) == Ok(nb.usageLogs) && LogsPart(db, Bare(q), base') == Ok(nb'.usageLogs)
    requires AccountGroupsPart(db, q, base) == Ok(nb.accountGroups)
    requires AccountGroupsPart(db, Bare(q), base') == Ok(nb'.accountGroups)
    ensures Fetched(db, q, base, base', nb, nb')
  {
  }

  lemma JoinsSame(db: Store, q: Request, base: seq<Row>, base': seq<Row>, nb: Neighbours, nb': Neighbours)
    requires db.Valid() && AllAnswered(db, q) && |base| == |base'|
    requires IdKeys(base) == IdKeys(base') && (Proxy in q.with ==> Keys(base, ProxyID) == Keys(base', ProxyID))
    requires Fetched(db, q, base, base', nb, nb') && Related(q, base, base', nb, nb')
    ensures forall i | 0 <= i < |base| :: SameGraph(Join(q.with.Keys, base[i], nb), Join(q.with.Keys, base'[i], nb'))
  {
    forall i | 0 <= i < |base| ensures SameGraph(Join(q.with.Keys, base[i], nb), Join(q.with.Keys, base'[i], nb')) {
      JoinSame(db, q, base, base', i, nb, nb');
    }
  }

  lemma JoinSame(db: Store, q: Request, base: seq<Row>, base': seq<Row>, i: nat, nb: Neighbours, nb': Neighbours)
    requires db.Valid() && AllAnswered(db, q) && i < |base| == |base'|
    requires IdKeys(base) == IdKeys(base') && (Proxy in q.with ==> Keys(base, ProxyID) == Keys(base', ProxyID))
    requires Fetched(db, q, base, base', nb, nb')
    requires Parent in q.with ==> SameParent(ParentOf(nb.parents, base[i]), ParentOf(nb'.parents, base'[i]))
    requires Children in q.with ==>
               SameGraphs(ChildrenOf(nb.children, IdOf(base[i])), ChildrenOf(nb'.children, IdOf(base'[i])))
    ensures SameGraph(Join(q.with.Keys, base[i], nb), Join(q.with.Keys, base'[i], nb'))
  {
    assert IdKeys(base)[i] == IdKeys(base')[i];
    SlotsSame(db, q, base, base', i, nb, nb');
    SlotsMakeGraph(q.with.Keys, base[i], base'[i], nb, nb');
  }

  /** The leaf slots of a node are the same in both batches. */
  ghost predicate LeafSlotsSame(edges: set<Edge>, f: Row, f': Row, nb: Neighbours, nb': Neighbours) {
    && (Groups in edges ==> IdKeys(GroupsOf(nb.links, IdOf(f))) == IdKeys(GroupsOf(nb'.links, IdOf(f'))))
    && (Proxy in edges ==> SameId(ProxyOf(nb.proxies, f), ProxyOf(nb'.proxies, f')))
    && (UsageLogs in edges ==> IdKeys(OwnedRows(nb.usageLogs, IdOf(f))) == IdKeys(OwnedRows(nb'.usageLogs, IdOf(f'))))
    && (AccountGroups in edges ==>
          Fks(OwnedRows(nb.accountGroups, IdOf(f)), AccountID) == Fks(OwnedRows(nb'.accountGroups, IdOf(f')),
                                                                      AccountID))
  }

  lemma SlotsSame(db: Store, q: Request, base: seq<Row>, base': seq<Row>, i: nat, nb: Neighbours, nb': Neighbours)
    requires db.Valid() && AllAnswered(db, q) && i < |base| == |base'|
    requires IdKeys(base) == IdKeys(base') && (Proxy in q.with ==> Keys(base, ProxyID) == Keys(base', ProxyID))
    requires Fetched(db, q, base, base', nb, nb')
    ensures LeafSlotsSame(q.with.Keys, base[i], base'[i], nb, nb')
  {
    if Groups in q.with { GroupsSame(db, q.with[Groups].core, base, base', i); }
    if Proxy in q.with { ProxySame(db, q.with[Proxy].core, base, base', i); }
    if UsageLogs in q.with { LogsSame(db, q.with[UsageLogs].core, base, base', i); }
    if AccountGroups in q.with { AccountGroupsSame(db, q.with[AccountGroups].core, base, base', i); }
  }

  lemma SlotsMakeGraph(edges: set<Edge>, f: Row, f': Row, nb: Neighbours, nb': Neighbours)
    requires IdOf(f) == IdOf(f') && LeafSlotsSame(edges, f, f', nb, nb')
    requires Parent in edges ==> SameParent(ParentOf(nb.parents, f), ParentOf(nb'.parents, f'))
    requires Children in edges ==> SameGraphs(ChildrenOf(nb.children, IdOf(f)), ChildrenOf(nb'.children, IdOf(f')))
    ensures SameGraph(Join(edges, f, nb), Join(edges, f', nb'))
  {
  }
}
