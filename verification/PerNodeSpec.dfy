/** Loading edge by edge: one sub-query per node, the way QueryChildren and its siblings would, and
    the conditions under which batched loading amounts to the same. */
module PerNodeSpec {
  import opened Schema
  import opened Store
  import opened QueryFacts
  import opened EagerSpec
  import opened Windows
  import opened Bags

  // ---------------------------------------------------------------- one sub-query per node

  function Traverse(core: Core): Core {
    core.(predicates := core.predicates + Traversed(core.inters))
  }

  function LeafRowsOf(table: Table, core: Core, columns: seq<Column>): seq<Row> {
    ScanRows(Fetch(table.rows, Traverse(core)), columns)
  }

  function Last<T>(s: seq<T>): Option<T> {
    if s == [] then None else Some(s[|s| - 1])
  }

  function OwnProxy(db: Store, q: Core, f: Row): Option<Row> {
    var fk := KeyOf(f, ProxyID);
    if fk.None? then None
    else Last(LeafRowsOf(db.proxies, Where(q, ColumnIn(ID, {fk.value})), IdColumns(q.fields, db.proxies.columns)))
  }

  function OwnUsageLogs(db: Store, q: Core, f: Row): seq<Row> {
    var q := WithField(q, AccountID);
    LeafRowsOf(db.usageLogs, Where(q, ColumnIn(AccountID, {IdOf(f)})), IdColumns(q.fields, db.usageLogs.columns))
  }

  function OwnAccountGroups(db: Store, q: Core, f: Row): seq<Row> {
    var q := WithField(q, AccountID);
    LeafRowsOf(db.accountGroups, Where(q, ColumnIn(AccountID, {IdOf(f)})),
               PlainColumns(q.fields, db.accountGroups.columns))
  }

  function OwnGroups(db: Store, q: Core, f: Row): seq<Row> {
    Members(ScanLinks(LinkRows(db, Traverse(q), {IdOf(f)}), IdColumns(q.fields, db.groups.columns)))
  }

  ghost function OwnParent(db: Store, q: Request, f: Row): Option<View>
    decreases q, 2
  {
    var fk := KeyOf(f, ParentAccountID);
    if fk.None? then None else Last(Nodes(db, q, Where(q.core, ColumnIn(ID, {fk.value}))))
  }

  ghost function OwnChildren(db: Store, q: Request, f: Row): seq<View>
    decreases q, 2
  {
    Nodes(db, q, Where(WithField(q.core, ParentAccountID), ColumnIn(ParentAccountID, {IdOf(f)})))
  }

  /** A node with every requested edge loaded by queries of its own. */
  ghost function NodeView(db: Store, q: Request, f: Row): View
    decreases q, 0
  {
    View(
      f,
      LoadedTypes(q.with.Keys),
      if Groups in q.with then Items(OwnGroups(db, q.with[Groups].core, f)) else Nil,
      if Proxy in q.with then OwnProxy(db, q.with[Proxy].core, f) else None,
      if Parent in q.with then OwnParent(db, q.with[Parent], f) else None,
      if Children in q.with then Items(OwnChildren(db, q.with[Children], f)) else Nil,
      if UsageLogs in q.with then Items(OwnUsageLogs(db, q.with[UsageLogs].core, f)) else Nil,
      if AccountGroups in q.with then Items(OwnAccountGroups(db, q.with[AccountGroups].core, f)) else Nil)
  }

  ghost function Nodes(db: Store, q: Request, core: Core): (vs: seq<View>)
    ensures |vs| == |Base(db, Traverse(core), q.with.Keys)|
    decreases q, 1
  {
    var base := Base(db, Traverse(core), q.with.Keys);
    seq(|base|, i requires 0 <= i < |base| => NodeView(db, q, base[i]))
  }

  // ---------------------------------------------------------------- equal trees

  ghost predicate DistinctIds(rows: seq<Row>) {
    forall i, j | 0 <= i < j < |rows| :: IdOf(rows[i]) != IdOf(rows[j])
  }

  /** The same groups, each once; if strict also in the same order. */
  ghost predicate SameGroups(strict: bool, s: Slice<Row>, t: Slice<Row>) {
    match (s, t)
    case (Nil, Nil) => true
    case (Items(a), Items(b)) => (forall r ::
        r in a <==> r in b) && DistinctIds(a) && DistinctIds(b) && (strict ==> a == b)
    case _ => false
  }

  ghost predicate SameParent(strict: bool, p: Option<View>, r: Option<View>)
    decreases p, 1
  {
    (p.None? <==> r.None?) && (p.Some? && r.Some? ==> Same(strict, p.value, r.value))
  }

  ghost predicate SameChildren(strict: bool, s: Slice<View>, t: Slice<View>)
    decreases s, 1
  {
    && (s.Nil? <==> t.Nil?)
    && (s.Items? && t.Items? ==>
          |s.items| == |t.items| && forall i | 0 <= i < |s.items| :: Same(strict, s.items[i], t.items[i]))
  }

  /** Equal trees, except that the groups of an account may come in another order if not strict. */
  ghost predicate Same(strict: bool, v: View, w: View)
    decreases v, 0
  {
    && v.fields == w.fields && v.loaded == w.loaded
    && SameGroups(strict, v.groups, w.groups)
    && v.proxy == w.proxy
    && SameParent(strict, v.parent, w.parent)
    && SameChildren(strict, v.children, w.children)
    && v.usageLogs == w.usageLogs && v.accountGroups == w.accountGroups
  }

  ghost predicate SameAll(strict: bool, vs: seq<View>, ws: seq<View>) {
    |vs| == |ws| && forall i | 0 <= i < |vs| :: Same(strict, vs[i], ws[i])
  }

  /** Strictly equal trees are equal. */
  lemma {:induction false} StrictIsEqual(v: View, w: View)
    requires Same(true, v, w)
    ensures v == w
    decreases v
  {
    if v.parent.Some? {
      StrictIsEqual(v.parent.value, w.parent.value);
    }
    if v.children.Items? {
      forall i | 0 <= i < |v.children.items| ensures v.children.items[i] == w.children.items[i] {
        StrictIsEqual(v.children.items[i], w.children.items[i]);
      }
    }
  }

  // ---------------------------------------------------------------- windows on sub-queries

  function Unlimited(core: Core): Core {
    core.(limit := None, offset := None)
  }

  /** The owners of the rows a sub-query would return for these keys if it had no window. */
  function Owners(table: Table, q: Core, c: Column, ks: set<int>): seq<Option<int>> {
    Keys(Fetch(table.rows, Traverse(Where(Unlimited(q), ColumnIn(c, ks)))), c)
  }

  function Accounts(links: seq<Link>): (keys: seq<Option<int>>)
    ensures |keys| == |links|
    ensures forall i | 0 <= i < |links| :: keys[i] == Some(links[i].account)
  {
    seq(|links|, i requires 0 <= i < |links| => Some(links[i].account))
  }

  /** The same for the joined groups query: the accounts of its join rows. */
  function LinkOwners(db: Store, q: Core, ids: set<int>): seq<Option<int>> {
    Accounts(LinkRows(db, Traverse(Unlimited(q)), ids))
  }

  ghost predicate FitsEdge(table: Table, q: Core, c: Column, ks: set<int>) {
    Fits(Owners(table, q, c, ks), q.limit, q.offset)
  }

  /** The accounts a parent or children edge loads for a batch. */
  function ParentBase(db: Store, p: Request, base: seq<Row>): seq<Row> {
    Base(db, Traverse(Where(p.core, ColumnIn(ID, KeySet(Keys(base, ParentAccountID))))), p.with.Keys)
  }

  function ChildBase(db: Store, c: Request, base: seq<Row>): seq<Row> {
    Base(db, Traverse(Where(WithField(c.core, ParentAccountID), ColumnIn(ParentAccountID, KeySet(IdKeys(base))))),
         c.with.Keys)
  }

  /** The batch fits the windows of the leaf sub-queries. */
  ghost predicate LeavesFit(db: Store, q: Request, base: seq<Row>) {
    var ids := KeySet(IdKeys(base));
    && (Groups in q.with ==>
          Fits(LinkOwners(db, q.with[Groups].core, ids), q.with[Groups].core.limit, q.with[Groups].core.offset))
    && (Proxy in q.with ==> FitsEdge(db.proxies, q.with[Proxy].core, ID, KeySet(Keys(base, ProxyID))))
    && (UsageLogs in q.with ==> FitsEdge(db.usageLogs, q.with[UsageLogs].core, AccountID, ids))
    && (AccountGroups in q.with ==> FitsEdge(db.accountGroups, q.with[AccountGroups].core, AccountID, ids))
  }

  /** At every edge of the tree the batch that is loaded there fits into the window of its
      sub-query. */
  ghost predicate Conforms(db: Store, q: Request, base: seq<Row>)
    decreases q, 0
  {
    && LeavesFit(db, q, base)
    && (Parent in q.with ==> ParentsFit(db, q.with[Parent], base))
    && (Children in q.with ==> ChildrenFit(db, q.with[Children], base))
  }

  ghost predicate ParentsFit(db: Store, p: Request, base: seq<Row>)
    decreases p, 1
  {
    FitsEdge(db.accounts, p.core, ID, KeySet(Keys(base, ParentAccountID))) && Conforms(db, p, ParentBase(db, p, base))
  }

  ghost predicate ChildrenFit(db: Store, c: Request, base: seq<Row>)
    decreases c, 1
  {
    FitsEdge(db.accounts, c.core, ParentAccountID, KeySet(IdKeys(base))) && Conforms(db, c, ChildBase(db, c, base))
  }

  // ---------------------------------------------------------------- telling rows apart

  /** account_groups has the primary key (account_id, group_id). */
  ghost predicate PairsDistinct(rows: seq<Row>) {
    forall i, j | 0 <= i < j < |rows| ::
      KeyOf(rows[i], AccountID) != KeyOf(rows[j], AccountID) || KeyOf(rows[i], GroupID) != KeyOf(rows[j], GroupID)
  }

  /** Where a sub-query cuts on both sides, its rows can be told apart by what is scanned of them;
      where the groups sub-query cuts at all, no join row is there twice. */
  ghost predicate Telling(db: Store, q: Request)
    decreases q
  {
    && (Groups in q.with ==> Unwindowed(q.with[Groups].core) || PairsDistinct(db.accountGroups.rows))
    && (UsageLogs in q.with ==>
         OneSided(q.with[UsageLogs].core.limit, q.with[UsageLogs].core.offset) || PrimaryKey(db.usageLogs.rows))
    && (AccountGroups in q.with ==>
         || OneSided(q.with[AccountGroups].core.limit, q.with[AccountGroups].core.offset)
         || NoRepeats(ScannedAccountGroups(db, q.with[AccountGroups].core)))
    && (Parent in q.with ==> Telling(db, q.with[Parent]))
    && (Children in q.with ==> Telling(db, q.with[Children]))
  }

  function ScannedAccountGroups(db: Store, q: Core): seq<Row> {
    ScanRows(db.accountGroups.rows, PlainColumns(WithField(q, AccountID).fields, db.accountGroups.columns))
  }

  // ---------------------------------------------------------------- the order of groups

  predicate Tied(o: seq<OrderTerm>, r: Row, s: Row) {
    Leq(o, r, s) && Leq(o, s, r)
  }

  /** The order terms of the groups sub-query separate every two groups it can return. */
  ghost predicate Separates(groups: seq<Row>, q: Core) {
    forall r, s | r in groups && s in groups && r != s
                  && HoldsAll(Traverse(q).predicates, r) && HoldsAll(Traverse(q).predicates, s) ::
      !Tied(q.order, r, s)
  }

  ghost predicate AllSeparate(db: Store, q: Request)
    decreases q
  {
    && (Groups in q.with ==> Separates(db.groups.rows, q.with[Groups].core))
    && (Parent in q.with ==> AllSeparate(db, q.with[Parent]))
    && (Children in q.with ==> AllSeparate(db, q.with[Children]))
  }
}
