/** Running a query builder: the base query, then one hash join per requested edge. */
module Eager {
  import opened Schema
  import opened Store
  import opened QueryFacts
  import opened EagerSpec
  import opened Entities
  import opened Builders
  import opened Loaders
  import opened Refusals

  /** Distinct objects with distinct IDs. */
  ghost predicate Unique(nodes: seq<Account>) {
    Distinct(nodes) && forall i: nat | i < |nodes| :: Owns(nodes, i)
  }

  ghost predicate Reports<T>(e: Option<Error>, o: Outcome<T>) {
    match e case None => o.Ok? case Some(x) => o == Err(x)
  }

  ghost predicate Apart(nodes: seq<Account>, b: QueryBuilder)
    reads b
  {
    forall a | a in nodes :: a !in b.Repr
  }

  // ---------------------------------------------------------------- shared neighbours

  /** The neighbour objects of one batch: one proxy and one parent per foreign key, the groups and
      the children. */
  datatype Sharing = Sharing(proxies: map<int, Leaf?>, parents: map<int, Account?>, groups: set<Leaf>,
                             children: set<Account>)

  /** No two of the objects have the same ID. */
  ghost predicate OneEach(gs: set<Leaf>) {
    forall x, y | x in gs && y in gs && IdOf(x.fields) == IdOf(y.fields) :: x == y
  }

  ghost predicate Among<T>(s: Slice<T>, gs: set<T>) {
    s.Items? ==> forall i | 0 <= i < |s.items| :: s.items[i] in gs
  }

  /** A many-to-one slot is the object kept for the foreign key. */
  ghost predicate Kept<T>(slot: T, none: T, key: Option<int>, m: map<int, T>) {
    if key.Some? then key.value in m && slot == m[key.value] else slot == none
  }

  /** The last neighbour with each key. */
  ghost function KeptFor<T>(neighbors: seq<T>, ids: seq<Option<int>>, none: T, ks: set<int>): map<int, T>
    requires |ids| == |neighbors|
  {
    map k | k in ks :: if LastHit(ids, Some(k)) == -1 then none else neighbors[LastHit(ids, Some(k))]
  }

  /** Two accounts that have a group with the same ID have the same object. */
  ghost predicate SharesGroups(s: Slice<Leaf>, t: Slice<Leaf>) {
    s.Items? && t.Items? ==> forall x, y | x in s.items && y in t.items && IdOf(x.fields) == IdOf(y.fields) :: x == y
  }

  /** A copy of the edges of some accounts. */
  type Snapshot = map<Account, Edges>

  ghost predicate Copies(seen: Snapshot)
    reads seen.Keys
  {
    forall a | a in seen :: seen[a] == a.edges
  }

  /** Accounts with equal foreign keys have the same proxy and the same parent object, and a group
      that two accounts have is one object. */
  ghost predicate Shares(level: set<Account>, seen: Snapshot)
    requires level <= seen.Keys
  {
    forall a, b | a in level && b in level ::
      && (KeyOf(a.fields, ProxyID) == KeyOf(b.fields, ProxyID) ==> seen[a].proxy == seen[b].proxy)
      && (KeyOf(a.fields, ParentAccountID) == KeyOf(b.fields, ParentAccountID) ==> seen[a].parent == seen[b].parent)
      && SharesGroups(seen[a].groups, seen[b].groups)
  }

  ghost function NodeSet(nodes: seq<Account>): set<Account> {
    set a | a in nodes
  }

  ghost function ParentSet(level: set<Account>, seen: Snapshot): set<Account>
    requires level <= seen.Keys
  {
    set a | a in level && seen[a].parent != null :: seen[a].parent
  }

  ghost function ChildSet(level: set<Account>, seen: Snapshot): set<Account>
    requires level <= seen.Keys
  {
    set a, c | a in level && seen[a].children.Items? && c in seen[a].children.items :: c
  }

  /** Sharing at every depth: the accounts of a level share, and so do all their parents together and
      all their children together, as far down as q requests these edges. */
  ghost predicate SharesDeep(level: set<Account>, q: Request, seen: Snapshot)
    decreases q
  {
    && level <= seen.Keys && Shares(level, seen)
    && (Parent in q.with ==> SharesDeep(ParentSet(level, seen), q.with[Parent], seen))
    && (Children in q.with ==> SharesDeep(ChildSet(level, seen), q.with[Children], seen))
  }

  ghost predicate Within(seen: Snapshot, wider: Snapshot) {
    forall a | a in seen :: a in wider && wider[a] == seen[a]
  }

  /** Part of a level that shares does so too, also in a wider snapshot. */
  lemma {:induction false} SharesPart(part: set<Account>, level: set<Account>, q: Request, seen: Snapshot,
                                      wider: Snapshot)
    requires SharesDeep(level, q, seen) && part <= level && Within(seen, wider)
    ensures SharesDeep(part, q, wider)
    decreases q
  {
    if Parent in q.with {
      SharesPart(ParentSet(part, wider), ParentSet(level, seen), q.with[Parent], seen, wider);
    }
    if Children in q.with {
      SharesPart(ChildSet(part, wider), ChildSet(level, seen), q.with[Children], seen, wider);
    }
  }

  lemma {:induction false} NobodyShares(q: Request)
    ensures SharesDeep({}, q, map[])
    decreases q
  {
    assert ParentSet({}, map[]) == {} && ChildSet({}, map[]) == {};
    if Parent in q.with { NobodyShares(q.with[Parent]); }
    if Children in q.with { NobodyShares(q.with[Children]); }
  }

  /** The parent objects kept for the foreign keys. */
  ghost function KeptParents(m: map<int, Account?>): set<Account> {
    set k | k in m && m[k] != null :: m[k]
  }

  /** The parents and the children of a batch share, each at every depth of its own request. */
  ghost predicate NeighboursShare(q: Request, ps: map<int, Account?>, cs: set<Account>, seen: Snapshot) {
    && (Parent in q.with ==> SharesDeep(KeptParents(ps), q.with[Parent], seen))
    && (Children in q.with ==> SharesDeep(cs, q.with[Children], seen))
  }

  /** The edges of a node come from the neighbours of the batch. */
  ghost predicate Wired(e: Edges, f: Row, sh: Sharing) {
    && Kept(e.proxy, null, KeyOf(f, ProxyID), sh.proxies)
    && Kept(e.parent, null, KeyOf(f, ParentAccountID), sh.parents)
    && Among(e.groups, sh.groups) && Among(e.children, sh.children)
  }

  lemma SharesAll(level: set<Account>, seen: Snapshot, sh: Sharing)
    requires OneEach(sh.groups) && level <= seen.Keys && forall a | a in level :: Wired(seen[a], a.fields, sh)
    ensures Shares(level, seen)
  {
  }

  lemma SharesBelow(level: set<Account>, q: Request, seen: Snapshot, wider: Snapshot, sh: Sharing)
    requires Within(seen, wider) && level <= wider.Keys && forall a | a in level :: Wired(wider[a], a.fields, sh)
    requires NeighboursShare(q, sh.parents, sh.children, seen) && Shares(level, wider)
    ensures SharesDeep(level, q, wider)
  {
    if Parent in q.with {
      SharesPart(ParentSet(level, wider), KeptParents(sh.parents), q.with[Parent], seen, wider);
    }
    if Children in q.with {
      SharesPart(ChildSet(level, wider), sh.children, q.with[Children], seen, wider);
    }
  }

  // ---------------------------------------------------------------- leaf queries

  method NewLeaves(rows: seq<Row>) returns (ls: seq<Leaf>)
    ensures LeafRows(ls) == rows
  {
    ls := [];
    for i := 0 to |rows|
      invariant LeafRows(ls) == rows[..i]
    {
      var l := new Leaf(rows[i]);
      ls := ls + [l];
    }
  }

  /** prepareQuery: the traversers add their predicates to the builder one by one; those that ran
      before an uninitialised interceptor, or before an invalid field is found, have done so. */
  method PrepareQuery(b: QueryBuilder, columns: seq<Column>) returns (e: Option<Error>)
    requires b.Valid()
    modifies b
    ensures b.Valid() && b.Repr == old(b.Repr) && b.SubRepr == old(b.SubRepr) && b.with == old(b.with)
    ensures b.ctx == old(b.ctx)
    ensures Reports(e, Prepare(old(b.denotes).core, columns))
    ensures b.denotes == old(b.denotes).(core := Attempted(old(b.denotes).core))
    ensures e.None? ==> b.denotes == old(b.denotes).(core := Prepare(old(b.denotes).core, columns).value)
  {
    ghost var core := b.OwnCore();
    AttemptedIs(core);
    e := RunTraversers(b);
    if e.None? {
      for j := 0 to |b.ctx.fields|
        invariant forall i | 0 <= i < j :: b.ctx.fields[i] in columns
      {
        if b.ctx.fields[j] !in columns {
          FirstInvalidIs(b.ctx.fields, columns, j);
          return Some(InvalidField(b.ctx.fields[j]));
        }
      }
    }
  }

  /** The first loop of prepareQuery. */
  method RunTraversers(b: QueryBuilder) returns (e: Option<Error>)
    requires b.Valid()
    modifies b
    ensures b.Valid() && b.Repr == old(b.Repr) && b.SubRepr == old(b.SubRepr) && b.with == old(b.with)
    ensures b.ctx == old(b.ctx)
    ensures e == if Uninitialized in old(b.denotes).core.inters then Some(UninitializedInterceptor) else None
    ensures b.denotes == old(b.denotes).(core := Attempted(old(b.denotes).core))
  {
    var predicates, done := Traverse(b.inters, b.predicates);
    b.predicates := predicates;
    b.denotes := b.denotes.(core := Attempted(b.denotes.core));
    e := if done then None else Some(UninitializedInterceptor);
  }

  method Traverse(inters: seq<Interceptor>, start: seq<Pred>) returns (predicates: seq<Pred>, done: bool)
    ensures predicates == start + Reached(inters, 0)
    ensures done <==> Uninitialized !in inters
  {
    predicates := start;
    var n := 0;
    while n < |inters| && !inters[n].Uninitialized?
      invariant n <= |inters| && forall j | 0 <= j < n :: !inters[j].Uninitialized?
      invariant predicates + Reached(inters, n) == start + Reached(inters, 0)
    {
      if inters[n].Traverser? {
        predicates := predicates + [inters[n].pred];
      }
      n := n + 1;
    }
    done := n == |inters|;
  }

  /** All on a leaf builder: prepare it and fetch the selected columns. */
  method LeafQueryAll(b: QueryBuilder, table: Table, columns: seq<Column>) returns (r: Outcome<seq<Leaf>>)
    requires b.Valid()
    modifies b
    ensures r.Err? ==> LeafAll(table, old(b.denotes).core, columns) == Err(r.error)
    ensures r.Ok? ==> LeafAll(table, old(b.denotes).core, columns) == Ok(LeafRows(r.value))
  {
    var e := PrepareQuery(b, table.columns);
    if e.Some? {
      return Err(e.value);
    }
    var leaves := NewLeaves(ScanRows(Fetch(table.rows, b.OwnCore()), columns));
    r := Ok(leaves);
  }

  /** Every row of a leaf query satisfies the term that was added to the builder last. */
  lemma LeafAllKnown(table: Table, q: Core, c: Column, keys: set<int>, columns: seq<Column>)
    requires LeafAll(table, Where(q, ColumnIn(c, keys)), columns).Ok? && c in columns
    ensures Known(Keys(LeafAll(table, Where(q, ColumnIn(c, keys)), columns).value, c), keys)
  {
    var core := Prepare(Where(q, ColumnIn(c, keys)), table.columns).value;
    var rows := ScanRows(Fetch(table.rows, core), columns);
    forall i | 0 <= i < |rows| ensures Keys(rows, c)[i].Some? && Keys(rows, c)[i].value in keys {
      FetchHolds(table.rows, core, i);
      assert core.predicates[|q.predicates|] == ColumnIn(c, keys);
      assert Holds(core.predicates[|q.predicates|], Fetch(table.rows, core)[i]);
    }
    KnownExact(Keys(rows, c), |rows|, keys);
  }

  /** query.Where(c IN keys) followed by query.All, for a leaf builder. */
  method FetchIn(b: QueryBuilder, table: Table, c: Column, keys: set<int>, columns: seq<Column>)
    returns (r: Outcome<seq<Leaf>>)
    requires b.Valid() && c in columns
    modifies b, b.ctx
    ensures r.Err? ==> LeafAll(table, Where(old(b.denotes).core, ColumnIn(c, keys)), columns) == Err(r.error)
    ensures r.Ok? ==> LeafAll(table, Where(old(b.denotes).core, ColumnIn(c, keys)), columns) == Ok(LeafRows(r.value))
    ensures r.Ok? ==> Known(Keys(LeafRows(r.value), c), keys)
  {
    ghost var q := b.denotes.core;
    b.Do(CallWhere(ColumnIn(c, keys)));
    r := LeafQueryAll(b, table, columns);
    if r.Ok? {
      LeafAllKnown(table, q, c, keys, columns);
    }
  }

  // ---------------------------------------------------------------- loadProxy

  method LoadProxy(sub: QueryBuilder, nodes: seq<Account>, db: Store)
    returns (e: Option<Error>, ghost px: map<int, Leaf?>)
    requires sub.Valid() && db.Valid() && Apart(nodes, sub)
    requires forall a | a in nodes :: a.edges.proxy == null
    modifies sub.Repr, nodes
    ensures Reports(e, ProxyRows(db, old(sub.denotes).core, NodeRows(nodes)))
    ensures e.None? ==> forall a | a in nodes ::
              && a.edges == old(a.edges).(proxy := a.edges.proxy)
              && ShowsLeaf(a.edges.proxy, ProxyOf(ProxyRows(db, old(sub.denotes).core, NodeRows(nodes)).value,
                                                  a.fields))
              && Kept(a.edges.proxy, null, KeyOf(a.fields, ProxyID), px)
  {
    px := map[];
    var ids, nodeids, fks := IndexedKeys(nodes, ProxyID);
    if |ids| == 0 {
      NoKeys(nodes, ProxyID);
      return None, px;
    }
    var r := FetchProxies(sub, db, NodeRows(nodes), fks);
    if r.Err? {
      return Some(r.error), px;
    }
    var ok;
    ok, px := WireProxies(nodes, nodeids, r.value);
    e := if ok then None else Some(Unexpected);
  }

  lemma NoKeys(nodes: seq<Account>, c: Column)
    requires KeySet(Keys(NodeRows(nodes), c)) == {}
    ensures forall a | a in nodes :: KeyOf(a.fields, c).None?
  {
    var keys := Keys(NodeRows(nodes), c);
    KeysExact(keys, |keys|);
    forall i | 0 <= i < |nodes| ensures KeyOf(nodes[i].fields, c).None? {
      assert keys[i] == KeyOf(nodes[i].fields, c);
    }
  }

  method FetchProxies(sub: QueryBuilder, db: Store, base: seq<Row>, fks: set<int>) returns (r: Outcome<seq<Leaf>>)
    requires sub.Valid() && db.Valid() && fks == KeySet(Keys(base, ProxyID)) && fks != {}
    modifies sub, sub.ctx
    ensures ProxyRows(db, old(sub.denotes).core, base) == if r.Err? then Err(r.error) else Ok(LeafRows(r.value))
    ensures r.Ok? ==> Known(IdKeys(LeafRows(r.value)), fks)
  {
    r := FetchIn(sub, db.proxies, ID, fks, IdColumns(sub.ctx.fields, db.proxies.columns));
    if r.Ok? {
      KnownIds(LeafRows(r.value), fks);
    }
  }

  /** The index of a M2O loader together with the set of keys it asks for. */
  method IndexedKeys(nodes: seq<Account>, c: Column)
    returns (ids: seq<int>, nodeids: map<int, seq<Account>>, fks: set<int>)
    ensures ForeignIndex(nodes, Keys(NodeRows(nodes), c), |nodes|, nodeids)
    ensures fks == nodeids.Keys == KeySet(Keys(NodeRows(nodes), c)) && (fks == {} <==> |ids| == 0)
  {
    ids, nodeids := IndexByForeignKey(nodes, c);
    fks := set k | k in ids;
    assert forall k :: k in fks <==> k in nodeids;
    assert fks == nodeids.Keys;
    assert |ids| > 0 ==> ids[0] in fks;
  }

  /** The M2O hash join over leaves; nodes with the same foreign key share one neighbour. */
  method WireProxies(nodes: seq<Account>, nodeids: map<int, seq<Account>>, neighbors: seq<Leaf>)
    returns (ok: bool, ghost px: map<int, Leaf?>)
    requires ForeignIndex(nodes, Keys(NodeRows(nodes), ProxyID), |nodes|, nodeids)
    requires forall a | a in nodes :: a.edges.proxy == null
    modifies nodes
    ensures ok <==> Known(IdKeys(LeafRows(neighbors)), nodeids.Keys)
    ensures ok ==> forall a | a in nodes ::
              && a.edges == old(a.edges).(proxy := a.edges.proxy)
              && ShowsLeaf(a.edges.proxy, ProxyOf(LeafRows(neighbors), a.fields))
              && Kept(a.edges.proxy, null, KeyOf(a.fields, ProxyID), px)
  {
    ghost var ids := IdKeys(LeafRows(neighbors));
    px := KeptFor<Leaf?>(neighbors, ids, null, nodeids.Keys);
    ForeignNodes(nodes, ProxyID, nodeids);
    ok := AssignProxies(nodes, nodeids, neighbors);
    forall a | a in nodes {
      LatestIsKept<Leaf?>(nodes, ProxyID, nodeids, neighbors, ids, a, null);
    }
  }

  /** What a node is assigned last is the last neighbour with its key, kept for that key. */
  lemma LatestIsKept<T>(nodes: seq<Account>, c: Column, nodeids: map<int, seq<Account>>, neighbors: seq<T>,
                        ids: seq<Option<int>>, a: Account, none: T)
    requires ForeignIndex(nodes, Keys(NodeRows(nodes), c), |nodes|, nodeids) && a in nodes
    requires |neighbors| == |ids| && forall j | 0 <= j < |ids| :: ids[j].Some?
    ensures var i := LastTo(ids, |neighbors|, KeyOf(a.fields, c));
            && Latest(nodeids, neighbors, ids, |neighbors|, a, none) == (if i == -1 then none else neighbors[i])
            && Kept(Latest(nodeids, neighbors, ids, |neighbors|, a, none), none, KeyOf(a.fields, c),
                    KeptFor(neighbors, ids, none, nodeids.Keys))
  {
    LatestIsLast(nodes, c, nodeids, neighbors, ids, |neighbors|, a, none);
    KeyIndexed(nodes, c, nodeids, a);
  }

  /** The key of a node is in the index. */
  lemma KeyIndexed(nodes: seq<Account>, c: Column, nodeids: map<int, seq<Account>>, a: Account)
    requires ForeignIndex(nodes, Keys(NodeRows(nodes), c), |nodes|, nodeids) && a in nodes
    ensures KeyOf(a.fields, c).Some? ==> KeyOf(a.fields, c).value in nodeids
  {
    var keys := Keys(NodeRows(nodes), c);
    KeysExact(keys, |keys|);
    var i :| 0 <= i < |nodes| && nodes[i] == a;
    assert keys[i] == KeyOf(a.fields, c);
  }

  lemma ForeignNodes(nodes: seq<Account>, c: Column, nodeids: map<int, seq<Account>>)
    requires ForeignIndex(nodes, Keys(NodeRows(nodes), c), |nodes|, nodeids)
    ensures forall k | k in nodeids :: forall a | a in nodeids[k] :: a in nodes
  {
  }

  // ---------------------------------------------------------------- loadUsageLogs, loadAccountGroups

  lemma IndexedNodes(nodes: seq<Account>, nodeids: map<int, Account>)
    requires IdIndex(nodes, |nodes|, nodeids)
    ensures forall k | k in nodeids :: nodeids[k] in nodes
  {
  }

  /** The O2M hash join over leaves: every node has the neighbours whose foreign key is its ID. */
  method WireLeaves(nodes: seq<Account>, neighbors: seq<Leaf>, slot: Slot) returns (ok: bool)
    requires Unique(nodes)
    modifies nodes
    ensures ok <==> Known(Fks(LeafRows(neighbors), AccountID), KeySet(IdKeys(NodeRows(nodes))))
    ensures ok ==> forall a | a in nodes ::
              && a.edges == Set(old(a.edges), slot, Get(a.edges, slot))
              && ShowsLeaves(Get(a.edges, slot), Items(OwnedRows(LeafRows(neighbors), IdOf(a.fields))))
  {
    var nodeids := IndexById(nodes);
    IndexedNodes(nodes, nodeids);
    InitLeaves(nodes, slot);
    ok := AssignLeaves(nodes, nodeids, neighbors, slot);
    AllLeavesDealt(nodes, nodeids, neighbors);
    forall a | a in nodes && ok ensures a.edges == Set(old(a.edges), slot, Get(a.edges, slot)) {
      SetTwice(old(a.edges), slot, Items([]), Get(a.edges, slot));
    }
  }

  lemma AllLeavesDealt(nodes: seq<Account>, nodeids: map<int, Account>, neighbors: seq<Leaf>)
    requires Unique(nodes) && IdIndex(nodes, |nodes|, nodeids)
    ensures forall a | a in nodes ::
              ShowsLeaves(Items(Dealt(nodeids, neighbors, Fks(LeafRows(neighbors), AccountID), |neighbors|, a)),
                          Items(OwnedRows(LeafRows(neighbors), IdOf(a.fields))))
  {
    forall a | a in nodes {
      LeavesDealt(nodes, nodeids, a, neighbors);
    }
  }

  lemma LeavesDealt(nodes: seq<Account>, nodeids: map<int, Account>, a: Account, neighbors: seq<Leaf>)
    requires Unique(nodes) && IdIndex(nodes, |nodes|, nodeids) && a in nodes
    ensures ShowsLeaves(Items(Dealt(nodeids, neighbors, Fks(LeafRows(neighbors), AccountID), |neighbors|, a)),
                        Items(OwnedRows(LeafRows(neighbors), IdOf(a.fields))))
  {
    DealtIsOwned(nodes, nodeids, a, neighbors, Fks(LeafRows(neighbors), AccountID));
    LeafPick(neighbors, Hits(Fks(LeafRows(neighbors), AccountID), IdOf(a.fields)));
  }

  method FetchUsageLogs(sub: QueryBuilder, db: Store, base: seq<Row>) returns (r: Outcome<seq<Leaf>>)
    requires sub.Valid() && db.Valid()
    modifies sub, sub.ctx
    ensures UsageLogRows(db, old(sub.denotes).core, base) == if r.Err? then Err(r.error) else Ok(LeafRows(r.value))
    ensures r.Ok? ==> Known(Fks(LeafRows(r.value), AccountID), KeySet(IdKeys(base)))
  {
    var ids := KeySet(IdKeys(base));
    AppendFieldOnce(sub, AccountID);
    r := FetchIn(sub, db.usageLogs, AccountID, ids, IdColumns(sub.ctx.fields, db.usageLogs.columns));
    if r.Ok? {
      KnownFks(LeafRows(r.value), AccountID, ids);
    }
  }

  method LoadUsageLogs(sub: QueryBuilder, nodes: seq<Account>, db: Store) returns (e: Option<Error>)
    requires sub.Valid() && db.Valid() && Unique(nodes) && Apart(nodes, sub)
    modifies sub.Repr, nodes
    ensures Reports(e, UsageLogRows(db, old(sub.denotes).core, NodeRows(nodes)))
    ensures e.None? ==> forall a | a in nodes ::
              && a.edges == old(a.edges).(usageLogs := a.edges.usageLogs)
              && ShowsLeaves(a.edges.usageLogs,
                             Items(OwnedRows(UsageLogRows(db, old(sub.denotes).core, NodeRows(nodes)).value,
                                             IdOf(a.fields))))
  {
    var r := FetchUsageLogs(sub, db, NodeRows(nodes));
    if r.Err? {
      return Some(r.error);
    }
    var ok := WireLeaves(nodes, r.value, UsageLogsSlot);
    e := if ok then None else Some(Unexpected);
  }

  method FetchAccountGroups(sub: QueryBuilder, db: Store, base: seq<Row>) returns (r: Outcome<seq<Leaf>>)
    requires sub.Valid() && db.Valid()
    modifies sub, sub.ctx
    ensures AccountGroupRows(db, old(sub.denotes).core, base) == if r.Err? then Err(r.error) else Ok(LeafRows(r.value))
    ensures r.Ok? ==> Known(Fks(LeafRows(r.value), AccountID), KeySet(IdKeys(base)))
  {
    var ids := KeySet(IdKeys(base));
    AppendFieldOnce(sub, AccountID);
    r := FetchIn(sub, db.accountGroups, AccountID, ids, PlainColumns(sub.ctx.fields, db.accountGroups.columns));
    if r.Ok? {
      KnownFks(LeafRows(r.value), AccountID, ids);
    }
  }

  method LoadAccountGroups(sub: QueryBuilder, nodes: seq<Account>, db: Store) returns (e: Option<Error>)
    requires sub.Valid() && db.Valid() && Unique(nodes) && Apart(nodes, sub)
    modifies sub.Repr, nodes
    ensures Reports(e, AccountGroupRows(db, old(sub.denotes).core, NodeRows(nodes)))
    ensures e.None? ==> forall a | a in nodes ::
              && a.edges == old(a.edges).(accountGroups := a.edges.accountGroups)
              && ShowsLeaves(a.edges.accountGroups,
                             Items(OwnedRows(AccountGroupRows(db, old(sub.denotes).core, NodeRows(nodes)).value,
                                             IdOf(a.fields))))
  {
    var r := FetchAccountGroups(sub, db, NodeRows(nodes));
    if r.Err? {
      return Some(r.error);
    }
    var ok := WireLeaves(nodes, r.value, AccountGroupsSlot);
    assert forall a | a in nodes :: Get(a.edges, AccountGroupsSlot) == a.edges.accountGroups;
    e := if ok then None else Some(Unexpected);
  }

  /** The selection of an O2M sub-query keeps the foreign key, unless all columns are selected. */
  method AppendFieldOnce(b: QueryBuilder, c: Column)
    requires b.Valid()
    modifies b, b.ctx
    ensures b.Valid() && b.Repr == old(b.Repr) && b.SubRepr == old(b.SubRepr) && b.with == old(b.with)
    ensures b.ctx == old(b.ctx)
    ensures b.denotes == old(b.denotes).(core := WithField(old(b.denotes).core, c))
  {
    if |b.ctx.fields| > 0 && c !in b.ctx.fields {
      b.Do(CallSelect([c]));
    }
  }

  // ---------------------------------------------------------------- loadGroups

  method LoadGroups(sub: QueryBuilder, nodes: seq<Account>, db: Store) returns (e: Option<Error>, ghost gs: set<Leaf>)
    requires sub.Valid() && db.Valid() && Unique(nodes) && Apart(nodes, sub)
    modifies sub.Repr, nodes
    ensures Reports(e, GroupLinks(db, old(sub.denotes).core, NodeRows(nodes)))
    ensures e.None? ==> forall a | a in nodes ::
              && a.edges == old(a.edges).(groups := a.edges.groups)
              && ShowsLeaves(a.edges.groups,
                             Items(GroupsOf(GroupLinks(db, old(sub.denotes).core, NodeRows(nodes)).value,
                                            IdOf(a.fields))))
              && Among(a.edges.groups, gs)
    ensures OneEach(gs)
  {
    gs := {};
    var byID := IndexAndInit(nodes);
    ghost var links;
    var columns, r;
    columns, r, links := FetchLinks(sub, db, NodeRows(nodes));
    if r.Err? {
      return Some(r.error), gs;
    }
    var ok;
    ok, gs := JoinGroups(nodes, byID, columns, r.value, links);
    e := if ok then None else Some(Unexpected);
  }

  /** The first loop of loadGroups. */
  method IndexAndInit(nodes: seq<Account>) returns (byID: map<int, Account>)
    modifies nodes
    ensures IdIndex(nodes, |nodes|, byID)
    ensures forall a | a in nodes :: a.edges == old(a.edges).(groups := Items([]))
  {
    byID := IndexById(nodes);
    InitLeaves(nodes, GroupsSlot);
  }

  method JoinGroups(nodes: seq<Account>, byID: map<int, Account>, columns: seq<Column>, table: seq<seq<Cell>>,
                    ghost links: seq<Link>)
    returns (ok: bool, ghost gs: set<Leaf>)
    requires Unique(nodes) && IdIndex(nodes, |nodes|, byID) && |columns| > 0 && Holding(table, links, columns)
    requires forall j | 0 <= j < |links| :: links[j].account in byID
    requires forall a | a in nodes :: a.edges.groups == Items([])
    modifies nodes
    ensures ok
    ensures forall a | a in nodes ::
              && a.edges == old(a.edges).(groups := a.edges.groups)
              && ShowsLeaves(a.edges.groups, Items(GroupsOf(links, IdOf(a.fields))))
              && Among(a.edges.groups, gs)
    ensures OneEach(gs)
  {
    var neighbors, nids := CollectLinks(byID, columns, table, links);
    ok, gs := WireGroups(nodes, byID, links, neighbors, nids);
  }

  /** The joined groups query; only accounts that were asked for come back. */
  method FetchLinks(sub: QueryBuilder, db: Store, base: seq<Row>)
    returns (columns: seq<Column>, r: Outcome<seq<seq<Cell>>>, ghost links: seq<Link>)
    requires sub.Valid() && db.Valid()
    modifies sub
    ensures GroupLinks(db, old(sub.denotes).core, base) == if r.Err? then Err(r.error) else Ok(links)
    ensures r.Ok? ==> |columns| > 0 && Holding(r.value, links, columns)
    ensures r.Ok? ==> forall j | 0 <= j < |links| :: links[j].account in KeySet(IdKeys(base))
  {
    columns, links := [], [];
    var err := PrepareQuery(sub, db.groups.columns);
    if err.Some? {
      return columns, Err(err.value), links;
    }
    var ids := KeySet(IdKeys(base));
    columns := IdColumns(sub.ctx.fields, db.groups.columns);
    var rows := LinkRows(db, sub.OwnCore(), ids);
    LinkAccounts(db, sub.OwnCore(), ids);
    JoinedHolding(rows, columns);
    links := ScanLinks(rows, columns);
    r := Ok(JoinedTable(rows, columns));
  }

  /** Only accounts that were asked for come back from the joined query. */
  lemma LinkAccounts(db: Store, core: Core, ids: set<int>)
    ensures forall i | 0 <= i < |LinkRows(db, core, ids)| :: LinkRows(db, core, ids)[i].account in ids
  {
    var joined := JoinRows(db.accountGroups.rows, db.groups.rows, ids, core.predicates);
    var sorted := SortLinks(core.order, joined);
    forall l | l in sorted ensures l.account in ids {
      assert l in multiset(sorted);
      assert l in joined;
    }
  }

  method WireGroups(nodes: seq<Account>, byID: map<int, Account>, ghost links: seq<Link>, neighbors: seq<Leaf>,
                    nids: map<int, set<Account>>)
    returns (ok: bool, ghost gs: set<Leaf>)
    requires Unique(nodes) && IdIndex(nodes, |nodes|, byID)
    requires forall j | 0 <= j < |links| :: links[j].account in byID
    requires LeafRows(neighbors) == Members(links) && Collected(byID, links, |links|, nids)
    requires forall a | a in nodes :: a.edges.groups == Items([])
    modifies nodes
    ensures ok
    ensures forall a | a in nodes ::
              && a.edges == old(a.edges).(groups := a.edges.groups)
              && ShowsLeaves(a.edges.groups, Items(GroupsOf(links, IdOf(a.fields))))
              && Among(a.edges.groups, gs)
    ensures OneEach(gs)
  {
    TakersAreNodes(nodes, byID, links, nids);
    ok := AssignGroups(nodes, nids, neighbors);
    MembersKnown(byID, links, nids);
    AllGiven(nodes, byID, links, neighbors, nids);
    gs := set x | x in neighbors;
    NeighborsDiffer(links, neighbors, gs);
    forall a | a in nodes {
      GivenAmong(nids, neighbors, a, gs);
    }
  }

  lemma AllGiven(nodes: seq<Account>, byID: map<int, Account>, links: seq<Link>, neighbors: seq<Leaf>, nids: map<int,
                 set<Account>>)
    requires Unique(nodes) && IdIndex(nodes, |nodes|, byID)
    requires forall j | 0 <= j < |links| :: links[j].account in byID
    requires LeafRows(neighbors) == Members(links) && Collected(byID, links, |links|, nids)
    ensures forall a | a in nodes ::
              ShowsLeaves(Items(Given(nids, neighbors, |neighbors|, a)), Items(GroupsOf(links, IdOf(a.fields))))
  {
    forall a | a in nodes {
      GroupsGiven(nodes, byID, links, neighbors, nids, a);
    }
  }

  lemma GroupsGiven(nodes: seq<Account>, byID: map<int, Account>, links: seq<Link>, neighbors: seq<Leaf>,
                    nids: map<int, set<Account>>, a: Account)
    requires Unique(nodes) && IdIndex(nodes, |nodes|, byID) && a in nodes
    requires forall j | 0 <= j < |links| :: links[j].account in byID
    requires LeafRows(neighbors) == Members(links) && Collected(byID, links, |links|, nids)
    ensures ShowsLeaves(Items(Given(nids, neighbors, |neighbors|, a)), Items(GroupsOf(links, IdOf(a.fields))))
  {
    var i: nat :| i < |nodes| && nodes[i] == a;
    GivenIsJoined(nodes, byID, links, nids, neighbors, i);
    var idx := Joined(links, Firsts(GroupIds(links)), |Firsts(GroupIds(links))|, IdOf(a.fields));
    LeafPick(neighbors, idx);
  }

  lemma LeafPick(neighbors: seq<Leaf>, idx: seq<nat>)
    requires forall j | 0 <= j < |idx| :: idx[j] < |neighbors|
    ensures LeafRows(Pick(neighbors, idx)) == Pick(LeafRows(neighbors), idx)
  {
  }

  /** The group objects of one batch have distinct IDs. */
  lemma NeighborsDiffer(links: seq<Link>, neighbors: seq<Leaf>, gs: set<Leaf>)
    requires LeafRows(neighbors) == Members(links) && gs == set x | x in neighbors
    ensures OneEach(gs)
  {
    var ids := GroupIds(links);
    forall x, y | x in gs && y in gs && IdOf(x.fields) == IdOf(y.fields) ensures x == y {
      var i :| 0 <= i < |neighbors| && neighbors[i] == x;
      var j :| 0 <= j < |neighbors| && neighbors[j] == y;
      assert IdOf(LeafRows(neighbors)[i]) == ids[Firsts(ids)[i]] && IdOf(LeafRows(neighbors)[j]) == ids[Firsts(ids)[j]];
      if i < j { FirstsDistinct(ids, i, j); }
      if j < i { FirstsDistinct(ids, j, i); }
    }
  }

  lemma GivenAmong(nids: map<int, set<Account>>, neighbors: seq<Leaf>, a: Account, gs: set<Leaf>)
    requires gs == set x | x in neighbors
    ensures Among(Items(Given(nids, neighbors, |neighbors|, a)), gs)
  {
    var mine := Given(nids, neighbors, |neighbors|, a);
    forall i | 0 <= i < |mine| ensures mine[i] in gs {
      GivenFrom(nids, neighbors, |neighbors|, a, mine[i]);
    }
  }

  lemma {:induction false} GivenFrom(nids: map<int, set<Account>>, neighbors: seq<Leaf>, n: nat, a: Account, x: Leaf)
    requires n <= |neighbors| && x in Given(nids, neighbors, n, a)
    ensures x in neighbors
  {
    if n != 0 && x != neighbors[n - 1] {
      GivenFrom(nids, neighbors, n - 1, a, x);
    }
  }

  lemma MembersKnown(byID: map<int, Account>, links: seq<Link>, nids: map<int, set<Account>>)
    requires forall j | 0 <= j < |links| :: links[j].account in byID
    requires Collected(byID, links, |links|, nids)
    ensures Known(IdKeys(Members(links)), nids.Keys)
  {
    var keys := IdKeys(Members(links));
    forall j | 0 <= j < |keys| ensures keys[j].Some? && keys[j].value in nids.Keys {
      assert GroupIds(links)[Firsts(GroupIds(links))[j]] == keys[j].value;
    }
    KnownExact(keys, |keys|, nids.Keys);
  }

  lemma TakersAreNodes(nodes: seq<Account>, byID: map<int, Account>, links: seq<Link>, nids: map<int, set<Account>>)
    requires IdIndex(nodes, |nodes|, byID)
    requires forall j | 0 <= j < |links| :: links[j].account in byID
    requires Collected(byID, links, |links|, nids)
    ensures forall g | g in nids :: forall a | a in nids[g] :: a in nodes
  {
    IndexedNodes(nodes, byID);
    forall g, a | g in nids && a in nids[g] ensures a in nodes {
      TakersExact(byID, links, |links|, g, a);
    }
  }

  // ---------------------------------------------------------------- loadParent, loadChildren, sqlAll

  ghost predicate ShowsParent(p: Account?, v: Option<View>, R: set<Account>)
    reads R
  {
    if p == null then v.None? else v.Some? && Shows(p, v.value, R)
  }

  ghost predicate ShowsChildren(s: Slice<Account>, v: Slice<View>, R: set<Account>)
    reads R
  {
    match (s, v)
    case (Nil, Nil) => true
    case (Items(ns), Items(vs)) => ShowsAll(ns, vs, R)
    case _ => false
  }

  /** The M2O hash join over accounts; nodes with the same foreign key share one neighbour. */
  method WireParents(nodes: seq<Account>, nodeids: map<int, seq<Account>>, neighbors: seq<Account>,
                     ghost vs: seq<View>, ghost R: set<Account>)
    returns (ok: bool, ghost ps: map<int, Account?>)
    requires ForeignIndex(nodes, Keys(NodeRows(nodes), ParentAccountID), |nodes|, nodeids)
    requires ShowsAll(neighbors, vs, R) && forall a | a in nodes :: a !in R
    requires forall a | a in nodes :: a.edges.parent == null
    modifies nodes
    ensures ok <==> Known(IdKeys(NodeRows(neighbors)), nodeids.Keys)
    ensures KeptParents(ps) <= NodeSet(neighbors)
    ensures ok ==> forall a | a in nodes ::
              && a.edges == old(a.edges).(parent := a.edges.parent)
              && ShowsParent(a.edges.parent, ParentOf(vs, a.fields), R)
              && Kept(a.edges.parent, null, KeyOf(a.fields, ParentAccountID), ps)
  {
    ghost var ids := IdKeys(NodeRows(neighbors));
    ps := KeptFor<Account?>(neighbors, ids, null, nodeids.Keys);
    ForeignNodes(nodes, ParentAccountID, nodeids);
    ShowsFields(neighbors, vs, R);
    ok := AssignParents(nodes, nodeids, neighbors);
    forall a | a in nodes {
      LatestIsKept<Account?>(nodes, ParentAccountID, nodeids, neighbors, ids, a, null);
    }
    assert ShowsAll(neighbors, vs, R);
  }

  /** The same, with what the parents share below them. */
  method HandOutParents(nodes: seq<Account>, nodeids: map<int, seq<Account>>, neighbors: seq<Account>,
                        ghost vs: seq<View>, ghost q: Request, ghost seen: Snapshot)
    returns (ok: bool, ghost ps: map<int, Account?>)
    requires ForeignIndex(nodes, Keys(NodeRows(nodes), ParentAccountID), |nodes|, nodeids)
    requires ShowsAll(neighbors, vs, seen.Keys) && Copies(seen) && SharesDeep(NodeSet(neighbors), q, seen)
    requires forall a | a in nodes :: a !in seen && a.edges.parent == null
    modifies nodes
    ensures ok <==> Known(IdKeys(NodeRows(neighbors)), nodeids.Keys)
    ensures Copies(seen) && SharesDeep(KeptParents(ps), q, seen)
    ensures ok ==> forall a | a in nodes ::
              && a.edges == old(a.edges).(parent := a.edges.parent)
              && ShowsParent(a.edges.parent, ParentOf(vs, a.fields), seen.Keys)
              && Kept(a.edges.parent, null, KeyOf(a.fields, ParentAccountID), ps)
  {
    ok, ps := WireParents(nodes, nodeids, neighbors, vs, seen.Keys);
    SharesPart(KeptParents(ps), NodeSet(neighbors), q, seen, seen);
  }

  /** The O2M hash join over accounts. */
  method WireChildren(nodes: seq<Account>, neighbors: seq<Account>, ghost vs: seq<View>,
                      ghost R: set<Account>) returns (ok: bool)
    requires Unique(nodes) && ShowsAll(neighbors, vs, R) && forall a | a in nodes :: a !in R
    modifies nodes
    ensures ok <==> Known(Keys(NodeRows(neighbors), ParentAccountID), KeySet(IdKeys(NodeRows(nodes))))
    ensures ok ==> forall a | a in nodes ::
              && a.edges == old(a.edges).(children := a.edges.children)
              && ShowsChildren(a.edges.children, Items(ChildrenOf(vs, IdOf(a.fields))), R)
              && Among(a.edges.children, NodeSet(neighbors))
  {
    var nodeids := IndexById(nodes);
    IndexedNodes(nodes, nodeids);
    InitChildren(nodes);
    ok := AssignChildren(nodes, nodeids, neighbors);
    assert ShowsAll(neighbors, vs, R);
    AllChildrenDealt(nodes, nodeids, neighbors, vs, R);
  }

  /** The same, leaving what the children share below them as it is. */
  method HandOutChildren(nodes: seq<Account>, neighbors: seq<Account>, ghost vs: seq<View>, ghost seen: Snapshot)
    returns (ok: bool)
    requires Unique(nodes) && ShowsAll(neighbors, vs, seen.Keys) && Copies(seen)
    requires forall a | a in nodes :: a !in seen
    modifies nodes
    ensures ok <==> Known(Keys(NodeRows(neighbors), ParentAccountID), KeySet(IdKeys(NodeRows(nodes))))
    ensures ok ==> forall a | a in nodes ::
              && a.edges == old(a.edges).(children := a.edges.children)
              && ShowsChildren(a.edges.children, Items(ChildrenOf(vs, IdOf(a.fields))), seen.Keys)
              && Among(a.edges.children, NodeSet(neighbors))
    ensures Copies(seen)
  {
    ok := WireChildren(nodes, neighbors, vs, seen.Keys);
  }

  lemma {:induction false} DealtFrom(nodeids: map<int, Account>, neighbors: seq<Account>, keys: seq<Option<int>>,
                                     n: nat, a: Account)
    requires n <= |neighbors| == |keys|
    ensures Among(Items(Dealt(nodeids, neighbors, keys, n, a)), NodeSet(neighbors))
  {
    if n > 0 {
      DealtFrom(nodeids, neighbors, keys, n - 1, a);
    }
  }

  lemma AllChildrenDealt(nodes: seq<Account>, nodeids: map<int, Account>, neighbors: seq<Account>, vs: seq<View>,
                         R: set<Account>)
    requires Unique(nodes) && IdIndex(nodes, |nodes|, nodeids) && ShowsAll(neighbors, vs, R)
    ensures forall a | a in nodes ::
              ChildrenShown(Dealt(nodeids, neighbors, Keys(NodeRows(neighbors), ParentAccountID), |neighbors|, a),
                            ChildrenOf(vs, IdOf(a.fields)), R, NodeSet(neighbors))
  {
    forall a | a in nodes
      ensures ChildrenShown(Dealt(nodeids, neighbors, Keys(NodeRows(neighbors), ParentAccountID), |neighbors|, a),
                            ChildrenOf(vs, IdOf(a.fields)), R, NodeSet(neighbors))
    {
      ChildrenDealt(nodes, nodeids, a, neighbors, vs, R);
      DealtFrom(nodeids, neighbors, Keys(NodeRows(neighbors), ParentAccountID), |neighbors|, a);
    }
  }

  ghost predicate ChildrenShown(ns: seq<Account>, vs: seq<View>, R: set<Account>, all: set<Account>)
    reads R
  {
    ShowsChildren(Items(ns), Items(vs), R) && Among(Items(ns), all)
  }

  lemma ChildrenDealt(nodes: seq<Account>, nodeids: map<int, Account>, a: Account, neighbors: seq<Account>,
                      vs: seq<View>, R: set<Account>)
    requires Unique(nodes) && IdIndex(nodes, |nodes|, nodeids) && a in nodes && ShowsAll(neighbors, vs, R)
    ensures ShowsChildren(Items(Dealt(nodeids, neighbors, Keys(NodeRows(neighbors), ParentAccountID), |neighbors|, a)),
                          Items(ChildrenOf(vs, IdOf(a.fields))), R)
  {
    ShowsFields(neighbors, vs, R);
    DealtIsOwned(nodes, nodeids, a, neighbors, Keys(NodeRows(neighbors), ParentAccountID));
  }

  /** Every account of a result satisfies the term that was added to the request last. */
  lemma RunKnown(db: Store, q: Request, core: Core, c: Column, keys: set<int>)
    requires Run(db, q, Where(core, ColumnIn(c, keys))).Ok?
    requires c in AccountSelection(core, q.with.Keys, db.accounts.columns)
    ensures Known(Keys(FieldsOf(Run(db, q, Where(core, ColumnIn(c, keys))).value), c), keys)
  {
    var prepared := Prepare(Where(core, ColumnIn(c, keys)), db.accounts.columns).value;
    RunFields(db, q, Where(core, ColumnIn(c, keys)));
    BaseKnown(db, core, prepared, q.with.Keys, c, keys);
  }

  lemma BaseKnown(db: Store, core: Core, prepared: Core, edges: set<Edge>, c: Column, keys: set<int>)
    requires Prepare(Where(core, ColumnIn(c, keys)), db.accounts.columns) == Ok(prepared)
    requires c in AccountSelection(core, edges, db.accounts.columns)
    ensures Known(Keys(Base(db, prepared, edges), c), keys)
  {
    var rows, base := Fetch(db.accounts.rows, prepared), Base(db, prepared, edges);
    assert prepared.predicates[|core.predicates|] == ColumnIn(c, keys);
    forall i | 0 <= i < |base| ensures Keys(base, c)[i].Some? && Keys(base, c)[i].value in keys {
      FetchHolds(db.accounts.rows, prepared, i);
      assert Holds(prepared.predicates[|core.predicates|], rows[i]);
    }
    KnownExact(Keys(base, c), |base|, keys);
  }

  /** query.Where(c IN keys) followed by query.All, for an account builder. */
  method AllWhere(b: QueryBuilder, db: Store, c: Column, keys: set<int>)
    returns (r: Outcome<seq<Account>>, ghost seen: Snapshot, ghost vs: seq<View>)
    requires b.Valid() && db.Valid()
    modifies b.Repr
    ensures Run(db, old(b.denotes),
                Where(old(b.denotes).core, ColumnIn(c, keys))) == if r.Err? then Err(r.error) else Ok(vs)
    ensures r.Ok? ==> ShowsAll(r.value, vs, seen.Keys)
    ensures r.Ok? ==> SharesDeep(NodeSet(r.value), old(b.denotes), seen)
    ensures r.Ok? && c in AccountSelection(old(b.denotes).core, old(b.denotes).with.Keys, db.accounts.columns) ==>
              Known(Keys(NodeRows(r.value), c), keys)
    ensures fresh(seen.Keys) && Copies(seen)
    decreases b.Repr, 1
  {
    ghost var q := b.denotes;
    ghost var core := Where(q.core, ColumnIn(c, keys));
    b.Do(CallWhere(ColumnIn(c, keys)));
    RunCore(db, q, b.denotes, core);
    r, seen := All(b, db);
    vs := [];
    if r.Ok? {
      vs := Run(db, q, core).value;
      ShowsFields(r.value, vs, seen.Keys);
      if c in AccountSelection(q.core, q.with.Keys, db.accounts.columns) {
        RunKnown(db, q, q.core, c, keys);
      }
    }
  }

  method LoadParent(sub: QueryBuilder, nodes: seq<Account>, db: Store)
    returns (e: Option<Error>, ghost seen: Snapshot, ghost ps: map<int, Account?>)
    requires sub.Valid() && db.Valid() && Apart(nodes, sub)
    requires forall a | a in nodes :: a.edges.parent == null
    modifies sub.Repr, nodes
    ensures Reports(e, ParentViews(db, old(sub.denotes), NodeRows(nodes)))
    ensures fresh(seen.Keys) && Copies(seen)
    ensures e.None? ==> SharesDeep(KeptParents(ps), old(sub.denotes), seen)
    ensures e.None? ==> forall a | a in nodes ::
              && a.edges == old(a.edges).(parent := a.edges.parent)
              && ShowsParent(a.edges.parent,
                             ParentOf(ParentViews(db, old(sub.denotes), NodeRows(nodes)).value, a.fields), seen.Keys)
              && Kept(a.edges.parent, null, KeyOf(a.fields, ParentAccountID), ps)
    decreases sub.Repr, 3
  {
    ghost var q := sub.denotes;
    seen, ps := map[], map[];
    var ids, nodeids, fks := IndexedKeys(nodes, ParentAccountID);
    if |ids| == 0 {
      NoKeys(nodes, ParentAccountID);
      NobodyShares(q);
      assert KeptParents(map[]) == {};
      return None, map[], ps;
    }
    var r;
    ghost var vs;
    r, seen, vs := FetchParents(sub, db, NodeRows(nodes), fks);
    if r.Err? {
      return Some(r.error), map[], ps;
    }
    var ok;
    ok, ps := HandOutParents(nodes, nodeids, r.value, vs, q, seen);
    e := if ok then None else Some(Unexpected);
  }

  /** The parents query: query.Where and query.All. */
  method FetchParents(sub: QueryBuilder, db: Store, base: seq<Row>, fks: set<int>)
    returns (r: Outcome<seq<Account>>, ghost seen: Snapshot, ghost vs: seq<View>)
    requires sub.Valid() && db.Valid() && fks == KeySet(Keys(base, ParentAccountID)) && fks != {}
    modifies sub.Repr
    ensures ParentViews(db, old(sub.denotes), base) == if r.Err? then Err(r.error) else Ok(vs)
    ensures r.Ok? ==> ShowsAll(r.value, vs, seen.Keys) && Known(IdKeys(NodeRows(r.value)), fks)
    ensures r.Ok? ==> SharesDeep(NodeSet(r.value), old(sub.denotes), seen)
    ensures fresh(seen.Keys) && Copies(seen)
    decreases sub.Repr, 2
  {
    r, seen, vs := AllWhere(sub, db, ID, fks);
    if r.Ok? {
      KnownIds(NodeRows(r.value), fks);
    }
  }

  method LoadChildren(sub: QueryBuilder, nodes: seq<Account>, db: Store)
    returns (e: Option<Error>, ghost seen: Snapshot, ghost kids: set<Account>)
    requires sub.Valid() && db.Valid() && Unique(nodes) && Apart(nodes, sub)
    modifies sub.Repr, nodes
    ensures Reports(e, ChildViews(db, old(sub.denotes), NodeRows(nodes)))
    ensures fresh(seen.Keys) && Copies(seen)
    ensures e.None? ==> SharesDeep(kids, old(sub.denotes), seen)
    ensures e.None? ==> forall a | a in nodes ::
              && a.edges == old(a.edges).(children := a.edges.children)
              && ShowsChildren(a.edges.children,
                               Items(ChildrenOf(ChildViews(db, old(sub.denotes), NodeRows(nodes)).value,
                                                IdOf(a.fields))), seen.Keys)
              && Among(a.edges.children, kids)
    decreases sub.Repr, 3
  {
    ghost var vs;
    kids := {};
    var r;
    r, seen, vs := FetchChildren(sub, db, NodeRows(nodes));
    if r.Err? {
      return Some(r.error), map[], {};
    }
    kids := NodeSet(r.value);
    var ok := HandOutChildren(nodes, r.value, vs, seen);
    e := if ok then None else Some(Unexpected);
  }

  /** The children query: parent_account_id joins a selection, then query.Where and query.All. */
  method FetchChildren(sub: QueryBuilder, db: Store, base: seq<Row>)
    returns (r: Outcome<seq<Account>>, ghost seen: Snapshot, ghost vs: seq<View>)
    requires sub.Valid() && db.Valid()
    modifies sub.Repr
    ensures ChildViews(db, old(sub.denotes), base) == if r.Err? then Err(r.error) else Ok(vs)
    ensures r.Ok? ==> ShowsAll(r.value, vs, seen.Keys)
    ensures r.Ok? ==> SharesDeep(NodeSet(r.value), old(sub.denotes), seen)
    ensures r.Ok? ==> Known(Keys(NodeRows(r.value), ParentAccountID), KeySet(IdKeys(base)))
    ensures fresh(seen.Keys) && Copies(seen)
    decreases sub.Repr, 2
  {
    ghost var q := sub.denotes;
    var ids := KeySet(IdKeys(base));
    AppendFieldOnce(sub, ParentAccountID);
    assert ParentAccountID in AccountSelection(sub.denotes.core, q.with.Keys, db.accounts.columns);
    RunCore(db, q, sub.denotes, Where(sub.denotes.core, ColumnIn(ParentAccountID, ids)));
    r, seen, vs := AllWhere(sub, db, ParentAccountID, ids);
  }

  method NewNodes(base: seq<Row>, loadedTypes: seq<bool>) returns (nodes: seq<Account>)
    ensures NodeRows(nodes) == base && Distinct(nodes)
    ensures forall i | 0 <= i < |nodes| :: fresh(nodes[i])
    ensures forall a | a in nodes :: a.edges == Edges(Nil, null, null, Nil, Nil, Nil, loadedTypes)
  {
    nodes := [];
    for i := 0 to |base|
      invariant NodeRows(nodes) == base[..i] && Distinct(nodes)
      invariant forall i | 0 <= i < |nodes| :: fresh(nodes[i])
      invariant forall a | a in nodes :: a.edges == Edges(Nil, null, null, Nil, Nil, Nil, loadedTypes)
    {
      var node := new Account(base[i], loadedTypes);
      nodes := nodes + [node];
    }
  }

  /** Scanned base rows keep their distinct IDs, so every node owns its ID. */
  lemma BaseOwns(db: Store, core: Core, edges: set<Edge>, nodes: seq<Account>)
    requires db.Valid() && NodeRows(nodes) == Base(db, core, edges) && Distinct(nodes)
    ensures Unique(nodes)
  {
    FetchKeys(db.accounts.rows, core);
    var rows, keys := Fetch(db.accounts.rows, core), IdKeys(NodeRows(nodes));
    forall i: nat | i < |nodes| ensures Owns(nodes, i) {
      assert forall j | 0 <= j < |nodes| ::
               KeyOf(rows[j], ID).Some? && KeyOf(nodes[j].fields, ID) == KeyOf(rows[j], ID);
      LastExact(keys, |nodes|, keys[i]);
    }
  }

  /** Sub-builder e is ready to run and denotes d[e]. */
  ghost predicate Ready(w: map<Edge, QueryBuilder>, d: map<Edge, Request>, e: Edge, nodes: seq<Account>)
    reads if e in w then {w[e]} + w[e].Repr else {}
  {
    (e in w <==> e in d) && (e in w ==> w[e].Valid() && w[e].denotes == d[e] && Apart(nodes, w[e]))
  }

  /** The withGroups branch of sqlAll. */
  method StepGroups(w: map<Edge, QueryBuilder>, ghost q: Request, nodes: seq<Account>, db: Store)
    returns (e: Option<Error>, ghost gs: set<Leaf>)
    requires Ready(w, q.with, Groups, nodes) && db.Valid() && Unique(nodes)
    requires forall a | a in nodes :: a.edges.groups == Nil
    modifies if Groups in w then w[Groups].Repr else {}, nodes
    ensures Reports(e, LinksPart(db, q, NodeRows(nodes)))
    ensures e.None? ==> forall a | a in nodes ::
              && a.edges == old(a.edges).(groups := a.edges.groups)
              && ShowsLeaves(a.edges.groups,
                             GroupsSlice(q.with.Keys, LinksPart(db, q, NodeRows(nodes)).value, a.fields))
              && Among(a.edges.groups, gs)
    ensures OneEach(gs)
  {
    e, gs := None, {};
    if Groups in w {
      e, gs := LoadGroups(w[Groups], nodes, db);
    }
  }

  /** The withProxy branch of sqlAll. */
  method StepProxy(w: map<Edge, QueryBuilder>, ghost q: Request, nodes: seq<Account>, db: Store)
    returns (e: Option<Error>, ghost px: map<int, Leaf?>)
    requires Ready(w, q.with, Proxy, nodes) && db.Valid() && Unique(nodes)
    requires forall a | a in nodes :: a.edges.proxy == null
    modifies if Proxy in w then w[Proxy].Repr else {}, nodes
    ensures Reports(e, ProxiesPart(db, q, NodeRows(nodes)))
    ensures e.None? ==> forall a | a in nodes ::
              && a.edges == old(a.edges).(proxy := a.edges.proxy)
              && ShowsLeaf(a.edges.proxy, ProxySlot(q.with.Keys, ProxiesPart(db, q, NodeRows(nodes)).value, a.fields))
              && Kept(a.edges.proxy, null, KeyOf(a.fields, ProxyID), px)
  {
    if Proxy in w {
      e, px := LoadProxy(w[Proxy], nodes, db);
    } else {
      e, px := None, map a | a in nodes && KeyOf(a.fields, ProxyID).Some? :: KeyOf(a.fields, ProxyID).value := null;
    }
  }

  /** The withUsageLogs branch of sqlAll. */
  method StepUsageLogs(w: map<Edge, QueryBuilder>, ghost q: Request, nodes: seq<Account>, db: Store)
    returns (e: Option<Error>)
    requires Ready(w, q.with, UsageLogs, nodes) && db.Valid() && Unique(nodes)
    requires forall a | a in nodes :: a.edges.usageLogs == Nil
    modifies if UsageLogs in w then w[UsageLogs].Repr else {}, nodes
    ensures Reports(e, LogsPart(db, q, NodeRows(nodes)))
    ensures e.None? ==> forall a | a in nodes ::
              && a.edges == old(a.edges).(usageLogs := a.edges.usageLogs)
              && ShowsLeaves(a.edges.usageLogs,
                             OwnedSlice(q.with.Keys, UsageLogs, LogsPart(db, q, NodeRows(nodes)).value, a.fields))
  {
    e := None;
    if UsageLogs in w {
      e := LoadUsageLogs(w[UsageLogs], nodes, db);
    }
  }

  /** The withAccountGroups branch of sqlAll. */
  method StepAccountGroups(w: map<Edge, QueryBuilder>, ghost q: Request, nodes: seq<Account>, db: Store)
    returns (e: Option<Error>)
    requires Ready(w, q.with, AccountGroups, nodes) && db.Valid() && Unique(nodes)
    requires forall a | a in nodes :: a.edges.accountGroups == Nil
    modifies if AccountGroups in w then w[AccountGroups].Repr else {}, nodes
    ensures Reports(e, AccountGroupsPart(db, q, NodeRows(nodes)))
    ensures e.None? ==> forall a | a in nodes ::
              && a.edges == old(a.edges).(accountGroups := a.edges.accountGroups)
              && ShowsLeaves(a.edges.accountGroups,
                             OwnedSlice(q.with.Keys, AccountGroups, AccountGroupsPart(db, q, NodeRows(nodes)).value,
                                        a.fields))
  {
    e := None;
    if AccountGroups in w {
      e := LoadAccountGroups(w[AccountGroups], nodes, db);
    }
  }

  /** The withParent branch of sqlAll. */
  method StepParent(w: map<Edge, QueryBuilder>, ghost q: Request, nodes: seq<Account>, db: Store)
    returns (e: Option<Error>, ghost seen: Snapshot, ghost ps: map<int, Account?>)
    requires Ready(w, q.with, Parent, nodes) && db.Valid() && Unique(nodes)
    requires forall a | a in nodes :: a.edges.parent == null
    modifies if Parent in w then w[Parent].Repr else {}, nodes
    ensures Reports(e, ParentsPart(db, q, NodeRows(nodes))) && fresh(seen.Keys) && Copies(seen)
    ensures e.None? && Parent in q.with ==> SharesDeep(KeptParents(ps), q.with[Parent], seen)
    ensures e.None? ==> forall a | a in nodes ::
              && a.edges == old(a.edges).(parent := a.edges.parent)
              && ShowsParent(a.edges.parent,
                             ParentSlot(q.with.Keys, ParentsPart(db, q, NodeRows(nodes)).value, a.fields), seen.Keys)
              && Kept(a.edges.parent, null, KeyOf(a.fields, ParentAccountID), ps)
    decreases if Parent in w then w[Parent].Repr else {}, 4
  {
    if Parent in w {
      e, seen, ps := LoadParent(w[Parent], nodes, db);
    } else {
      e, seen := None, map[];
      ps := map a | a in nodes && KeyOf(a.fields, ParentAccountID).Some? :: KeyOf(a.fields,
          ParentAccountID).value := null;
    }
  }

  /** The withChildren branch of sqlAll. */
  method StepChildren(w: map<Edge, QueryBuilder>, ghost q: Request, nodes: seq<Account>, db: Store)
    returns (e: Option<Error>, ghost seen: Snapshot, ghost kids: set<Account>)
    requires Ready(w, q.with, Children, nodes) && db.Valid() && Unique(nodes)
    requires forall a | a in nodes :: a.edges.children == Nil
    modifies if Children in w then w[Children].Repr else {}, nodes
    ensures Reports(e, ChildrenPart(db, q, NodeRows(nodes))) && fresh(seen.Keys) && Copies(seen)
    ensures e.None? && Children in q.with ==> SharesDeep(kids, q.with[Children], seen)
    ensures e.None? ==> forall a | a in nodes ::
              && a.edges == old(a.edges).(children := a.edges.children)
              && ShowsChildren(a.edges.children,
                               ChildrenSlice(q.with.Keys, ChildrenPart(db, q, NodeRows(nodes)).value,
                                             a.fields), seen.Keys)
              && Among(a.edges.children, kids)
    decreases if Children in w then w[Children].Repr else {}, 4
  {
    e, seen, kids := None, map[], {};
    if Children in w {
      e, seen, kids := LoadChildren(w[Children], nodes, db);
    }
  }

  /** withChildren after withParent: the parent slots and what is below them stay. */
  method ThenChildren(w: map<Edge, QueryBuilder>, ghost q: Request, nodes: seq<Account>, db: Store,
                      ghost pv: seq<View>, ghost parents: Snapshot)
    returns (e: Option<Error>, ghost seen: Snapshot, ghost kids: set<Account>)
    requires Ready(w, q.with, Children, nodes) && db.Valid() && Unique(nodes)
    requires Children in w ==> parents.Keys !! w[Children].Repr
    requires forall a | a in nodes :: a.edges.children == Nil && a !in parents
    requires Copies(parents)
    requires forall a | a in nodes ::
               ShowsParent(a.edges.parent, ParentSlot(q.with.Keys, pv, a.fields), parents.Keys)
    modifies if Children in w then w[Children].Repr else {}, nodes
    ensures Reports(e, ChildrenPart(db, q, NodeRows(nodes)))
    ensures fresh(seen.Keys) && Copies(seen) && Copies(parents)
    ensures e.None? && Children in q.with ==> SharesDeep(kids, q.with[Children], seen)
    ensures e.None? ==> forall a | a in nodes ::
              && a.edges == old(a.edges).(children := a.edges.children)
              && ShowsChildren(a.edges.children,
                               ChildrenSlice(q.with.Keys, ChildrenPart(db, q, NodeRows(nodes)).value, a.fields),
                               seen.Keys)
              && Among(a.edges.children, kids)
              && ShowsParent(a.edges.parent, ParentSlot(q.with.Keys, pv, a.fields), parents.Keys)
    decreases if Children in w then w[Children].Repr else {}, 5
  {
    e, seen, kids := StepChildren(w, q, nodes, db);
  }

  /** What the slots filled by each pair of branches must hold. */
  ghost predicate GroupsAndProxyShown(groups: Slice<Leaf>, proxy: Leaf?, f: Row, edges: set<Edge>,
                                      links: seq<Link>, proxies: seq<Row>, gs: set<Leaf>, px: map<int, Leaf?>)
  {
    && ShowsLeaves(groups, GroupsSlice(edges, links, f)) && ShowsLeaf(proxy, ProxySlot(edges, proxies, f))
    && Among(groups, gs) && Kept(proxy, null, KeyOf(f, ProxyID), px)
  }

  ghost predicate LogsAndAccountGroupsShown(logs: Slice<Leaf>, ags: Slice<Leaf>, f: Row, edges: set<Edge>,
                                            logRows: seq<Row>, agRows: seq<Row>) {
    ShowsLeaves(logs, OwnedSlice(edges, UsageLogs, logRows, f)) && ShowsLeaves(ags,
        OwnedSlice(edges, AccountGroups, agRows, f))
  }

  ghost predicate ParentAndChildrenShown(parent: Account?, children: Slice<Account>, f: Row, edges: set<Edge>,
                                         parents: seq<View>, kids: seq<View>, R: set<Account>, ps: map<int, Account?>,
                                         cs: set<Account>)
    reads R
  {
    && ShowsParent(parent, ParentSlot(edges, parents, f), R) &&
         ShowsChildren(children, ChildrenSlice(edges, kids, f), R)
    && Kept(parent, null, KeyOf(f, ParentAccountID), ps) && Among(children, cs)
  }

  /** Two sub-builders are ready to run, live in F, and share no state. */
  ghost predicate ReadyPair(w: map<Edge, QueryBuilder>, d: map<Edge, Request>, e: Edge, f: Edge, nodes: seq<Account>,
                            F: set<object>)
    reads F
  {
    && (e in w <==> e in d) && (f in w <==> f in d)
    && (e in w ==> w[e] in F && w[e].Repr <= F && w[e].Valid() && w[e].denotes == d[e])
    && (f in w ==> w[f] in F && w[f].Repr <= F && w[f].Valid() && w[f].denotes == d[f])
    && (e in w && f in w ==> w[e].Repr !! w[f].Repr)
    && forall a | a in nodes :: a !in F
  }

  /** withGroups and withProxy. */
  method LoadGroupsAndProxy(w: map<Edge, QueryBuilder>, ghost F: set<object>, ghost q: Request, nodes: seq<Account>,
                            db: Store)
    returns (e: Option<Error>, ghost gs: set<Leaf>, ghost px: map<int, Leaf?>)
    requires ReadyPair(w, q.with, Groups, Proxy, nodes, F) && db.Valid() && Unique(nodes)
    requires forall a | a in nodes :: a.edges.groups == Nil && a.edges.proxy == null
    modifies F, nodes
    ensures e.Some? ==>
              Reports(e, LinksPart(db, q, NodeRows(nodes))) || (LinksPart(db, q, NodeRows(nodes)).Ok? && Reports(e,
                  ProxiesPart(db, q, NodeRows(nodes))))
    ensures e.None? ==> LinksPart(db, q, NodeRows(nodes)).Ok? && ProxiesPart(db, q, NodeRows(nodes)).Ok?
    ensures e.None? ==> forall a | a in nodes ::
              && a.edges == old(a.edges).(groups := a.edges.groups, proxy := a.edges.proxy)
              && GroupsAndProxyShown(a.edges.groups, a.edges.proxy, a.fields, q.with.Keys,
                                     LinksPart(db, q, NodeRows(nodes)).value,
                                     ProxiesPart(db, q, NodeRows(nodes)).value, gs, px)
    ensures OneEach(gs)
  {
    px := map[];
    e, gs := StepGroups(w, q, nodes, db);
    if e.None? {
      e, px := StepProxy(w, q, nodes, db);
    }
  }

  /** withUsageLogs and withAccountGroups. */
  method LoadLogsAndAccountGroups(w: map<Edge, QueryBuilder>, ghost F: set<object>, ghost q: Request,
                                  nodes: seq<Account>, db: Store)
    returns (e: Option<Error>, ghost logs: seq<Row>, ghost ags: seq<Row>)
    requires ReadyPair(w, q.with, UsageLogs, AccountGroups, nodes, F) && db.Valid() && Unique(nodes)
    requires forall a | a in nodes :: a.edges.usageLogs == Nil && a.edges.accountGroups == Nil
    modifies F, nodes
    ensures e.Some? ==>
              Reports(e, LogsPart(db, q, NodeRows(nodes))) || (LogsPart(db, q, NodeRows(nodes)).Ok? && Reports(e,
                  AccountGroupsPart(db, q, NodeRows(nodes))))
    ensures e.None? ==>
              LogsPart(db, q, NodeRows(nodes)) == Ok(logs) && AccountGroupsPart(db, q, NodeRows(nodes)) == Ok(ags)
    ensures e.None? ==> forall a | a in nodes ::
              && a.edges == old(a.edges).(usageLogs := a.edges.usageLogs, accountGroups := a.edges.accountGroups)
              && LogsAndAccountGroupsShown(a.edges.usageLogs, a.edges.accountGroups, a.fields, q.with.Keys, logs, ags)
  {
    logs, ags := [], [];
    e := StepUsageLogs(w, q, nodes, db);
    if e.None? {
      e := StepAccountGroups(w, q, nodes, db);
      if e.None? {
        logs, ags := LogsPart(db, q, NodeRows(nodes)).value, AccountGroupsPart(db, q, NodeRows(nodes)).value;
      }
    }
  }

  /** withParent and withChildren. */
  method LoadParentAndChildren(w: map<Edge, QueryBuilder>, ghost F: set<object>, ghost q: Request, nodes: seq<Account>,
                               db: Store)
    returns (e: Option<Error>, ghost seen: Snapshot, ghost ps: map<int, Account?>, ghost cs: set<Account>)
    requires ReadyPair(w, q.with, Parent, Children, nodes, F) && db.Valid() && Unique(nodes)
    requires forall a | a in nodes :: a.edges.parent == null && a.edges.children == Nil
    modifies F, nodes
    ensures fresh(seen.Keys) && Copies(seen)
    ensures e.Some? ==>
              Reports(e, ParentsPart(db, q, NodeRows(nodes))) || (ParentsPart(db, q, NodeRows(nodes)).Ok? && Reports(e,
                  ChildrenPart(db, q, NodeRows(nodes))))
    ensures e.None? ==> ParentsPart(db, q, NodeRows(nodes)).Ok? && ChildrenPart(db, q, NodeRows(nodes)).Ok?
    ensures e.None? ==> forall a | a in nodes ::
              && a.edges == old(a.edges).(parent := a.edges.parent, children := a.edges.children)
              && ParentAndChildrenShown(a.edges.parent, a.edges.children, a.fields, q.with.Keys,
                                        ParentsPart(db, q, NodeRows(nodes)).value, ChildrenPart(db, q,
                                            NodeRows(nodes)).value, seen.Keys, ps, cs)
    ensures e.None? ==> NeighboursShare(q, ps, cs, seen)
    decreases F, 6
  {
    cs := {};
    e, seen, ps := StepParent(w, q, nodes, db);
    if e.None? {
      ghost var parents, children := seen, map[];
      e, children, cs := ThenChildren(w, q, nodes, db, ParentsPart(db, q, NodeRows(nodes)).value, parents);
      if e.None? {
        seen := Union(parents, children);
        WidenSharing(q, ps, cs, parents, children, seen);
        WidenAll(nodes, q, ParentsPart(db, q, NodeRows(nodes)).value, ChildrenPart(db, q, NodeRows(nodes)).value,
                 parents, children, seen, ps, cs);
      }
    }
  }

  /** Two copies of one heap fit together. */
  ghost method Union(parents: Snapshot, children: Snapshot) returns (seen: Snapshot)
    requires Copies(parents) && Copies(children)
    ensures Copies(seen) && seen.Keys == parents.Keys + children.Keys
    ensures Within(parents, seen) && Within(children, seen)
  {
    seen := parents + children;
  }

  lemma WidenAll(nodes: seq<Account>, q: Request, ps: seq<View>, kids: seq<View>, parents: Snapshot,
                 children: Snapshot, seen: Snapshot, kept: map<int, Account?>, cs: set<Account>)
    requires parents.Keys <= seen.Keys && children.Keys <= seen.Keys
    requires forall a | a in nodes ::
               && ShowsParent(a.edges.parent, ParentSlot(q.with.Keys, ps, a.fields), parents.Keys)
               && Kept(a.edges.parent, null, KeyOf(a.fields, ParentAccountID), kept)
               && ShowsChildren(a.edges.children, ChildrenSlice(q.with.Keys, kids, a.fields), children.Keys)
               && Among(a.edges.children, cs)
    ensures forall a | a in nodes ::
              ParentAndChildrenShown(a.edges.parent, a.edges.children, a.fields, q.with.Keys, ps, kids, seen.Keys, kept,
                                     cs)
  {
    forall a | a in nodes
      ensures ParentAndChildrenShown(a.edges.parent, a.edges.children, a.fields, q.with.Keys, ps, kids, seen.Keys, kept,
                                     cs)
    {
      WidenParent(a.edges.parent, ParentSlot(q.with.Keys, ps, a.fields), parents.Keys, seen.Keys);
      WidenChildren(a.edges.children, ChildrenSlice(q.with.Keys, kids, a.fields), children.Keys, seen.Keys);
    }
  }

  lemma WidenSharing(q: Request, ps: map<int, Account?>, cs: set<Account>, parents: Snapshot, children: Snapshot,
                     seen: Snapshot)
    requires Parent in q.with ==> SharesDeep(KeptParents(ps), q.with[Parent], parents)
    requires Children in q.with ==> SharesDeep(cs, q.with[Children], children)
    requires Within(parents, seen) && Within(children, seen)
    ensures NeighboursShare(q, ps, cs, seen)
  {
    if Parent in q.with { SharesPart(KeptParents(ps), KeptParents(ps), q.with[Parent], parents, seen); }
    if Children in q.with { SharesPart(cs, cs, q.with[Children], children, seen); }
  }

  lemma WidenParent(p: Account?, v: Option<View>, R: set<Account>, R': set<Account>)
    requires ShowsParent(p, v, R) && R <= R'
    ensures ShowsParent(p, v, R')
  {
    if p != null {
      ShowsMonotone(p, v.value, R, R');
    }
  }

  lemma WidenChildren(s: Slice<Account>, v: Slice<View>, R: set<Account>, R': set<Account>)
    requires ShowsChildren(s, v, R) && R <= R'
    ensures ShowsChildren(s, v, R')
  {
    if s.Items? {
      forall j | 0 <= j < |s.items| {
        ShowsMonotone(s.items[j], v.items[j], R, R');
      }
    }
  }

  lemma ShowsJoin(a: Account, edges: set<Edge>, nb: Neighbours, R: set<Account>, R': set<Account>, sh: Sharing)
    requires a in R' && R <= R' && a.edges.loadedTypes == LoadedTypes(edges)
    requires GroupsAndProxyShown(a.edges.groups, a.edges.proxy, a.fields, edges, nb.links, nb.proxies, sh.groups,
                                 sh.proxies)
    requires ParentAndChildrenShown(a.edges.parent, a.edges.children, a.fields, edges, nb.parents, nb.children, R,
                                    sh.parents, sh.children)
    requires LogsAndAccountGroupsShown(a.edges.usageLogs, a.edges.accountGroups, a.fields, edges, nb.usageLogs,
                                       nb.accountGroups)
    ensures Shows(a, Join(edges, a.fields, nb), R')
  {
    WidenParent(a.edges.parent, ParentSlot(edges, nb.parents, a.fields), R, R');
    WidenChildren(a.edges.children, ChildrenSlice(edges, nb.children, a.fields), R, R');
  }

  ghost predicate FourShown(groups: Slice<Leaf>, proxy: Leaf?, parent: Account?, children: Slice<Account>, f: Row,
                            edges: set<Edge>,
                            links: seq<Link>, proxies: seq<Row>, parents: seq<View>, kids: seq<View>,
                            R: set<Account>, sh: Sharing)
    reads R
  {
    && GroupsAndProxyShown(groups, proxy, f, edges, links, proxies, sh.groups, sh.proxies)
    && ParentAndChildrenShown(parent, children, f, edges, parents, kids, R, sh.parents, sh.children)
  }

  /** The first four edge branches. */
  method LoadFourEdges(w: map<Edge, QueryBuilder>, ghost F1: set<object>, ghost F2: set<object>,
                       ghost q: Request, nodes: seq<Account>, db: Store)
    returns (e: Option<Error>, ghost seen: Snapshot, ghost links: seq<Link>, ghost proxies: seq<Row>,
             ghost parents: seq<View>, ghost kids: seq<View>, ghost sh: Sharing)
    requires ReadyPair(w, q.with, Groups, Proxy, nodes, F1) && ReadyPair(w, q.with, Parent, Children, nodes, F2)
    requires F1 !! F2 && db.Valid() && Unique(nodes)
    requires forall a | a in nodes :: a.edges == Edges(Nil, null, null, Nil, Nil, Nil, LoadedTypes(q.with.Keys))
    modifies F1, F2, nodes
    ensures fresh(seen.Keys) && Copies(seen)
    ensures e.Some? ==> Gather(db, q, NodeRows(nodes)) == Err(e.value)
    ensures e.None? ==>
              LinksPart(db, q, NodeRows(nodes)) == Ok(links) && ProxiesPart(db, q, NodeRows(nodes)) == Ok(proxies)
                        && ParentsPart(db, q, NodeRows(nodes)) == Ok(parents) &&
                             ChildrenPart(db, q, NodeRows(nodes)) == Ok(kids)
    ensures e.None? ==> forall a | a in nodes ::
              && a.edges == Edges(a.edges.groups, a.edges.proxy, a.edges.parent, a.edges.children, Nil, Nil,
                                  LoadedTypes(q.with.Keys))
              && FourShown(a.edges.groups, a.edges.proxy, a.edges.parent, a.edges.children, a.fields, q.with.Keys,
                           links, proxies, parents, kids, seen.Keys, sh)
    ensures OneEach(sh.groups)
    ensures e.None? ==> NeighboursShare(q, sh.parents, sh.children, seen)
    decreases F2, 8
  {
    seen, links, proxies, parents, kids, sh := map[], [], [], [], [], Sharing(map[], map[], {}, {});
    ghost var gs, px;
    e, gs, px := LoadGroupsAndProxy(w, F1, q, nodes, db);
    if e.Some? {
      GatherFailsFirst(db, q, NodeRows(nodes), e);
      return;
    }
    links, proxies := LinksPart(db, q, NodeRows(nodes)).value, ProxiesPart(db, q, NodeRows(nodes)).value;
    e, seen, parents, kids, sh := ThenParentAndChildren(w, F2, q, nodes, db, links, proxies, gs, px);
  }

  /** withParent and withChildren after withGroups and withProxy. */
  method ThenParentAndChildren(w: map<Edge, QueryBuilder>, ghost F: set<object>, ghost q: Request, nodes: seq<Account>,
                               db: Store, ghost links: seq<Link>, ghost proxies: seq<Row>, ghost gs: set<Leaf>,
                               ghost px: map<int, Leaf?>)
    returns (e: Option<Error>, ghost seen: Snapshot, ghost parents: seq<View>, ghost kids: seq<View>,
             ghost sh: Sharing)
    requires ReadyPair(w, q.with, Parent, Children, nodes, F) && db.Valid() && Unique(nodes) && OneEach(gs)
    requires LinksPart(db, q, NodeRows(nodes)) == Ok(links) && ProxiesPart(db, q, NodeRows(nodes)) == Ok(proxies)
    requires forall a | a in nodes ::
               && a.edges == Edges(a.edges.groups, a.edges.proxy, null, Nil, Nil, Nil, LoadedTypes(q.with.Keys))
               && GroupsAndProxyShown(a.edges.groups, a.edges.proxy, a.fields, q.with.Keys, links, proxies, gs, px)
    modifies F, nodes
    ensures fresh(seen.Keys) && Copies(seen)
    ensures e.Some? ==> Gather(db, q, NodeRows(nodes)) == Err(e.value)
    ensures e.None? ==>
              ParentsPart(db, q, NodeRows(nodes)) == Ok(parents) && ChildrenPart(db, q, NodeRows(nodes)) == Ok(kids)
    ensures e.None? ==> forall a | a in nodes ::
              && a.edges == Edges(a.edges.groups, a.edges.proxy, a.edges.parent, a.edges.children, Nil, Nil,
                                  LoadedTypes(q.with.Keys))
              && FourShown(a.edges.groups, a.edges.proxy, a.edges.parent, a.edges.children, a.fields, q.with.Keys,
                           links, proxies, parents, kids, seen.Keys, sh)
    ensures OneEach(sh.groups)
    ensures e.None? ==> NeighboursShare(q, sh.parents, sh.children, seen)
    decreases F, 7
  {
    parents, kids, sh := [], [], Sharing(map[], map[], {}, {});
    ghost var ps, cs;
    e, seen, ps, cs := LoadParentAndChildren(w, F, q, nodes, db);
    if e.Some? {
      GatherFailsNext(db, q, NodeRows(nodes), e);
      return;
    }
    sh := Sharing(px, ps, gs, cs);
    parents, kids := ParentsPart(db, q, NodeRows(nodes)).value, ChildrenPart(db, q, NodeRows(nodes)).value;
  }

  ghost predicate AllShown(e: Edges, f: Row, edges: set<Edge>, nb: Neighbours, R: set<Account>, sh: Sharing)
    reads R
  {
    && e.loadedTypes == LoadedTypes(edges)
    && FourShown(e.groups, e.proxy, e.parent, e.children, f, edges, nb.links, nb.proxies, nb.parents, nb.children, R,
                 sh)
    && LogsAndAccountGroupsShown(e.usageLogs, e.accountGroups, f, edges, nb.usageLogs, nb.accountGroups)
  }

  lemma GatherFailsFirst(db: Store, q: Request, base: seq<Row>, e: Option<Error>)
    requires e.Some? && (Reports(e, LinksPart(db, q, base)) || (LinksPart(db, q, base).Ok? &&
               Reports(e, ProxiesPart(db, q, base))))
    ensures Gather(db, q, base) == Err(e.value)
  {
  }

  lemma GatherFailsNext(db: Store, q: Request, base: seq<Row>, e: Option<Error>)
    requires LinksPart(db, q, base).Ok? && ProxiesPart(db, q, base).Ok?
    requires e.Some? && (Reports(e, ParentsPart(db, q, base)) || (ParentsPart(db, q, base).Ok? &&
               Reports(e, ChildrenPart(db, q, base))))
    ensures Gather(db, q, base) == Err(e.value)
  {
  }

  lemma GatherFails(db: Store, q: Request, base: seq<Row>, e: Option<Error>)
    requires LinksPart(db, q, base).Ok? && ProxiesPart(db, q, base).Ok? && ParentsPart(db, q, base).Ok?
    requires ChildrenPart(db, q, base).Ok?
    requires e.Some? && (Reports(e, LogsPart(db, q, base)) || (LogsPart(db, q, base).Ok? &&
               Reports(e, AccountGroupsPart(db, q, base))))
    ensures Gather(db, q, base) == Err(e.value)
  {
  }

  /** The edge branches of sqlAll, in the order in which they can fail: groups, proxy, parent,
      children, usage logs, account groups. */
  method LoadEdges(w: map<Edge, QueryBuilder>, ghost F1: set<object>, ghost F2: set<object>, ghost F3: set<object>,
                   ghost q: Request, nodes: seq<Account>, db: Store)
    returns (e: Option<Error>, ghost seen: Snapshot, ghost nb: Neighbours, ghost sh: Sharing)
    requires ReadyPair(w, q.with, Groups, Proxy, nodes, F1) && ReadyPair(w, q.with, Parent, Children, nodes, F2)
    requires ReadyPair(w, q.with, UsageLogs, AccountGroups, nodes, F3)
    requires F1 !! F2 && F1 !! F3 && F2 !! F3 && db.Valid() && Unique(nodes)
    requires forall a | a in nodes :: a.edges == Edges(Nil, null, null, Nil, Nil, Nil, LoadedTypes(q.with.Keys))
    modifies F1, F2, F3, nodes
    ensures fresh(seen.Keys) && Copies(seen)
    ensures Gather(db, q, NodeRows(nodes)) == if e.Some? then Err(e.value) else Ok(nb)
    ensures e.None? ==> forall a | a in nodes :: AllShown(a.edges, a.fields, q.with.Keys, nb, seen.Keys, sh)
    ensures OneEach(sh.groups)
    ensures e.None? ==> NeighboursShare(q, sh.parents, sh.children, seen)
    decreases F2, 9
  {
    ghost var links, proxies, parents, kids;
    nb := Neighbours([], [], [], [], [], []);
    e, seen, links, proxies, parents, kids, sh := LoadFourEdges(w, F1, F2, q, nodes, db);
    if e.None? {
      e, nb := LoadLastEdges(w, F3, q, nodes, db, links, proxies, parents, kids, seen, sh);
    }
  }

  /** The last two edge branches, once the first four are done. */
  method LoadLastEdges(w: map<Edge, QueryBuilder>, ghost F: set<object>, ghost q: Request, nodes: seq<Account>,
                       db: Store,
                       ghost links: seq<Link>, ghost proxies: seq<Row>, ghost parents: seq<View>, ghost kids: seq<View>,
                       ghost seen: Snapshot, ghost sh: Sharing)
    returns (e: Option<Error>, ghost nb: Neighbours)
    requires ReadyPair(w, q.with, UsageLogs, AccountGroups, nodes, F) && db.Valid() && Unique(nodes)
    requires LinksPart(db, q, NodeRows(nodes)) == Ok(links) && ProxiesPart(db, q, NodeRows(nodes)) == Ok(proxies)
    requires ParentsPart(db, q, NodeRows(nodes)) == Ok(parents) && ChildrenPart(db, q, NodeRows(nodes)) == Ok(kids)
    requires forall a | a in nodes ::
               && a.edges == Edges(a.edges.groups, a.edges.proxy, a.edges.parent, a.edges.children, Nil, Nil,
                                   LoadedTypes(q.with.Keys))
               && FourShown(a.edges.groups, a.edges.proxy, a.edges.parent, a.edges.children, a.fields, q.with.Keys,
                            links, proxies, parents, kids, seen.Keys, sh)
    requires Copies(seen) && seen.Keys !! F && forall a | a in nodes :: a !in seen
    modifies F, nodes
    ensures Gather(db, q, NodeRows(nodes)) == if e.Some? then Err(e.value) else Ok(nb)
    ensures e.None? ==> forall a | a in nodes :: AllShown(a.edges, a.fields, q.with.Keys, nb, seen.Keys, sh)
    ensures Copies(seen)
  {
    ghost var logs, ags;
    nb := Neighbours([], [], [], [], [], []);
    e, logs, ags := LoadLogsAndAccountGroups(w, F, q, nodes, db);
    if e.Some? {
      GatherFails(db, q, NodeRows(nodes), e);
      return;
    }
    nb := Neighbours(links, proxies, parents, kids, logs, ags);
    GatherSucceeds(db, q, NodeRows(nodes), nb);
  }

  ghost function Foot1(w: map<Edge, QueryBuilder>, e: Edge): set<object>
    reads if e in w then {w[e]} else {}
  {
    if e in w then w[e].Repr else {}
  }

  ghost function Foot(w: map<Edge, QueryBuilder>, e: Edge, f: Edge): set<object>
    reads if e in w then {w[e]} else {}, if f in w then {w[f]} else {}
  {
    Foot1(w, e) + Foot1(w, f)
  }

  lemma PairReady(w: map<Edge, QueryBuilder>, R: set<object>, d: map<Edge, Request>, e: Edge, f: Edge,
                  nodes: seq<Account>)
    requires SubsValid(w, R, d) && e != f && forall a | a in nodes :: a !in R
    ensures Foot(w, e, f) <= R && ReadyPair(w, d, e, f, nodes, Foot(w, e, f))
  {
  }

  lemma FootApart(w: map<Edge, QueryBuilder>, R: set<object>, d: map<Edge, Request>, e: Edge, f: Edge)
    requires SubsValid(w, R, d) && e != f
    ensures Foot1(w, e) !! Foot1(w, f)
  {
  }

  lemma PairsApart(w: map<Edge, QueryBuilder>, R: set<object>, d: map<Edge, Request>, e: Edge, f: Edge, g: Edge,
                   h: Edge)
    requires SubsValid(w, R, d) && e != g && e != h && f != g && f != h
    ensures Foot(w, e, f) !! Foot(w, g, h)
  {
    FootApart(w, R, d, e, g);
    FootApart(w, R, d, e, h);
    FootApart(w, R, d, f, g);
    FootApart(w, R, d, f, h);
  }

  /** The edge branches of sqlAll on the sub-builders of b. */
  method RunEdges(b: QueryBuilder, ghost q: Request, nodes: seq<Account>, db: Store)
    returns (e: Option<Error>, ghost seen: Snapshot, ghost nb: Neighbours, ghost sh: Sharing)
    requires b.Valid() && b.denotes.with == q.with && db.Valid() && Unique(nodes) && Apart(nodes, b)
    requires forall a | a in nodes :: a.edges == Edges(Nil, null, null, Nil, Nil, Nil, LoadedTypes(q.with.Keys))
    modifies b.Repr, nodes
    ensures fresh(seen.Keys) && Copies(seen)
    ensures Gather(db, q, NodeRows(nodes)) == if e.Some? then Err(e.value) else Ok(nb)
    ensures e != Some(Unexpected)
    ensures e.None? ==> forall a | a in nodes :: AllShown(a.edges, a.fields, q.with.Keys, nb, seen.Keys, sh)
    ensures OneEach(sh.groups)
    ensures e.None? ==> NeighboursShare(q, sh.parents, sh.children, seen)
    decreases b.Repr, 0, 0
  {
    var w := b.with;
    ghost var R, d := b.SubRepr, q.with;
    assert SubsValid(w, R, d);
    PairReady(w, R, d, Groups, Proxy, nodes);
    PairReady(w, R, d, Parent, Children, nodes);
    PairReady(w, R, d, UsageLogs, AccountGroups, nodes);
    PairsApart(w, R, d, Groups, Proxy, Parent, Children);
    PairsApart(w, R, d, Groups, Proxy, UsageLogs, AccountGroups);
    PairsApart(w, R, d, Parent, Children, UsageLogs, AccountGroups);
    e, seen, nb, sh := LoadEdges(w, Foot(w, Groups, Proxy), Foot(w, Parent, Children),
                                  Foot(w, UsageLogs, AccountGroups),
                                  q, nodes, db);
    GatherExpected(db, q, NodeRows(nodes));
  }

  /** The base query: prepareQuery, and one node per row. */
  method BaseNodes(b: QueryBuilder, db: Store) returns (r: Outcome<seq<Account>>, ghost prepared: Core)
    requires b.Valid() && db.Valid()
    modifies b
    ensures b.Valid() && b.Repr == old(b.Repr) && b.denotes.with == old(b.denotes).with
    ensures Prepare(old(b.denotes).core, db.accounts.columns) == if r.Err? then Err(r.error) else Ok(prepared)
    ensures r.Ok? ==> NodeRows(r.value) == Base(db, prepared, b.denotes.with.Keys) && Unique(r.value)
    ensures r.Ok? ==> forall i | 0 <= i < |r.value| :: fresh(r.value[i])
    ensures r.Ok? ==>
              forall a | a in r.value :: a.edges == Edges(Nil, null, null, Nil, Nil, Nil,
                                                          LoadedTypes(b.denotes.with.Keys))
  {
    prepared := b.denotes.core;
    var err := PrepareQuery(b, db.accounts.columns);
    if err.Some? {
      return Err(err.value), prepared;
    }
    prepared := b.denotes.core;
    var edges := b.with.Keys;
    var nodes := NewNodes(Base(db, b.OwnCore(), edges), LoadedTypes(edges));
    BaseOwns(db, b.OwnCore(), edges, nodes);
    r := Ok(nodes);
  }

  /** All: prepareQuery, then sqlAll. */
  method All(b: QueryBuilder, db: Store) returns (r: Outcome<seq<Account>>, ghost seen: Snapshot)
    requires b.Valid() && db.Valid()
    modifies b.Repr
    ensures r.Err? ==> Run(db, old(b.denotes), old(b.denotes).core) == Err(r.error)
    ensures r.Err? ==> r.error != Unexpected
    ensures r.Ok? ==> Run(db, old(b.denotes), old(b.denotes).core).Ok? && Unique(r.value)
    ensures r.Ok? ==> ShowsAll(r.value, Run(db, old(b.denotes), old(b.denotes).core).value, seen.Keys)
    ensures r.Ok? ==> SharesDeep(NodeSet(r.value), old(b.denotes), seen)
    ensures fresh(seen.Keys) && Copies(seen)
    decreases b.Repr, 0
  {
    ghost var q := b.denotes;
    ghost var prepared, nb;
    seen := map[];
    r, prepared := BaseNodes(b, db);
    if r.Err? || |r.value| == 0 {
      NobodyShares(q);
      assert r.Ok? ==> NodeSet(r.value) == {};
      return;
    }
    var err;
    err, seen, nb := LoadAll(b, q, r.value, db);
    if err.Some? {
      return Err(err.value), map[];
    }
  }

  /** sqlAll after the base query: all edges of all nodes. */
  method LoadAll(b: QueryBuilder, ghost q: Request, nodes: seq<Account>, db: Store)
    returns (e: Option<Error>, ghost seen: Snapshot, ghost nb: Neighbours)
    requires b.Valid() && b.denotes.with == q.with && db.Valid() && Unique(nodes) && Apart(nodes, b)
    requires forall a | a in nodes :: a.edges == Edges(Nil, null, null, Nil, Nil, Nil, LoadedTypes(q.with.Keys))
    modifies b.Repr, nodes
    ensures Gather(db, q, NodeRows(nodes)) == if e.Some? then Err(e.value) else Ok(nb)
    ensures e != Some(Unexpected)
    ensures e.None? ==> ShowsAll(nodes, JoinAll(q.with.Keys, NodeRows(nodes), nb), seen.Keys)
    ensures e.None? ==> SharesDeep(NodeSet(nodes), q, seen)
    ensures Copies(seen) && fresh(seen.Keys - NodeSet(nodes))
    decreases b.Repr, 0, 1
  {
    ghost var sh;
    e, seen, nb, sh := RunEdges(b, q, nodes, db);
    if e.None? {
      seen := Complete(nodes, q, nb, seen, sh);
    }
  }

  /** Together with the nodes, the region reached by the sub-queries shows the joined views, and
      everything in it shares. */
  ghost method Complete(nodes: seq<Account>, q: Request, nb: Neighbours, below: Snapshot, sh: Sharing)
    returns (seen: Snapshot)
    requires forall a | a in nodes :: AllShown(a.edges, a.fields, q.with.Keys, nb, below.Keys, sh)
    requires OneEach(sh.groups) && NeighboursShare(q, sh.parents, sh.children, below) && Copies(below)
    ensures seen.Keys == below.Keys + NodeSet(nodes) && Copies(seen)
    ensures ShowsAll(nodes, JoinAll(q.with.Keys, NodeRows(nodes), nb), seen.Keys)
    ensures SharesDeep(NodeSet(nodes), q, seen)
  {
    seen := below + map a | a in nodes :: a.edges;
    forall i | 0 <= i < |nodes| ensures Shows(nodes[i], Join(q.with.Keys, nodes[i].fields, nb), seen.Keys) {
      ShowsJoin(nodes[i], q.with.Keys, nb, below.Keys, seen.Keys, sh);
    }
    SharesAll(NodeSet(nodes), seen, sh);
    SharesBelow(NodeSet(nodes), q, below, seen, sh);
  }
}
