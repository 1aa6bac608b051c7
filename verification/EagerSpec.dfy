/** What eager loading returns: the request tree, the entity tree, and the join of a batch of
    nodes with the neighbours fetched for the whole batch. */
module EagerSpec {
  import opened Schema
  import opened Store

  /** The eager edges of an account; builders of other entities have edges of their own. */
  datatype Edge = Groups | Proxy | Parent | Children | UsageLogs | AccountGroups | OtherEdge(name: string)

  /** What a query builder denotes: its own part, and the sub-request of every With* edge. */
  datatype Request = Request(core: Core, with: map<Edge, Request>)

  /** A Go slice of neighbours: nil, or a (possibly empty) list. */
  datatype Slice<+T> = Nil | Items(items: seq<T>)

  /** A loaded account with everything reachable from it, as a value. */
  datatype View = View(
    fields: Row,
    loaded: seq<bool>,
    groups: Slice<Row>,
    proxy: Option<Row>,
    parent: Option<View>,
    children: Slice<View>,
    usageLogs: Slice<Row>,
    accountGroups: Slice<Row>)

  // ---------------------------------------------------------------- index lists

  function Keys(rows: seq<Row>, c: Column): (keys: seq<Option<int>>)
    ensures |keys| == |rows|
    ensures forall i | 0 <= i < |rows| :: keys[i] == KeyOf(rows[i], c)
  {
    seq(|rows|, i requires 0 <= i < |rows| => KeyOf(rows[i], c))
  }

  /** The ID fields of entities, as join keys. */
  function IdKeys(rows: seq<Row>): (keys: seq<Option<int>>)
    ensures |keys| == |rows|
    ensures forall i | 0 <= i < |rows| :: keys[i] == Some(IdOf(rows[i]))
  {
    seq(|rows|, i requires 0 <= i < |rows| => Some(IdOf(rows[i])))
  }

  /** A NOT NULL foreign key of an entity; the Go field is zero when it was not scanned. */
  function Fks(rows: seq<Row>, c: Column): (keys: seq<Option<int>>)
    ensures |keys| == |rows|
    ensures forall i | 0 <= i < |rows| ::
              keys[i] == Some(if KeyOf(rows[i], c).Some? then KeyOf(rows[i], c).value else 0)
  {
    seq(|rows|, i requires 0 <= i < |rows| => Some(if KeyOf(rows[i], c).Some? then KeyOf(rows[i], c).value else 0))
  }

  function FieldsOf(vs: seq<View>): (rows: seq<Row>)
    ensures |rows| == |vs|
    ensures forall i | 0 <= i < |vs| :: rows[i] == vs[i].fields
  {
    seq(|vs|, i requires 0 <= i < |vs| => vs[i].fields)
  }

  /** The positions below n that hold key k, in order. */
  function HitsTo(keys: seq<Option<int>>, n: nat, k: int): (idx: seq<nat>)
    requires n <= |keys|
    ensures forall j | 0 <= j < |idx| :: idx[j] < n
  {
    if n == 0 then []
    else
      var before := HitsTo(keys, n - 1, k);
      if keys[n - 1] == Some(k) then before + [n - 1] else before
  }

  function Hits(keys: seq<Option<int>>, k: int): (idx: seq<nat>)
    ensures forall j | 0 <= j < |idx| :: idx[j] < |keys|
  {
    HitsTo(keys, |keys|, k)
  }

  /** HitsTo lists exactly the positions of k. */
  lemma {:induction false} HitsExact(keys: seq<Option<int>>, n: nat, k: int)
    requires n <= |keys|
    ensures forall i: nat :: i in HitsTo(keys, n, k) <==> i < n && keys[i] == Some(k)
  {
    if n != 0 {
      HitsExact(keys, n - 1, k);
    }
  }

  /** The last position below n that holds the key, or -1. */
  function LastTo(keys: seq<Option<int>>, n: nat, k: Option<int>): (i: int)
    requires n <= |keys|
    ensures -1 <= i < n
  {
    if n == 0 || k.None? then -1
    else if keys[n - 1] == k then n - 1 else LastTo(keys, n - 1, k)
  }

  function LastHit(keys: seq<Option<int>>, k: Option<int>): (i: int)
    ensures -1 <= i < |keys|
  {
    LastTo(keys, |keys|, k)
  }

  lemma {:induction false} LastExact(keys: seq<Option<int>>, n: nat, k: Option<int>)
    requires n <= |keys|
    ensures LastTo(keys, n, k) >= 0 ==> k.Some? && keys[LastTo(keys, n, k)] == k
    ensures k.Some? ==> forall j | LastTo(keys, n, k) < j < n :: keys[j] != k
  {
    if n != 0 && k.Some? && keys[n - 1] != k {
      LastExact(keys, n - 1, k);
    }
  }

  /** The keys that occur below n. */
  function KeysTo(keys: seq<Option<int>>, n: nat): set<int>
    requires n <= |keys|
  {
    if n == 0 then {} else KeysTo(keys, n - 1) + if keys[n - 1].Some? then {keys[n - 1].value} else {}
  }

  function KeySet(keys: seq<Option<int>>): set<int> {
    KeysTo(keys, |keys|)
  }

  lemma {:induction false} KeysExact(keys: seq<Option<int>>, n: nat)
    requires n <= |keys|
    ensures forall k :: k in KeysTo(keys, n) <==> exists i :: 0 <= i < n && keys[i] == Some(k)
  {
    if n != 0 {
      KeysExact(keys, n - 1);
    }
  }

  /** Every one of the first n positions holds a key of the set. */
  predicate KnownTo(keys: seq<Option<int>>, n: nat, ks: set<int>)
    requires n <= |keys|
  {
    n == 0 || (KnownTo(keys, n - 1, ks) && keys[n - 1].Some? && keys[n - 1].value in ks)
  }

  predicate Known(keys: seq<Option<int>>, ks: set<int>) {
    KnownTo(keys, |keys|, ks)
  }

  lemma {:induction false} KnownExact(keys: seq<Option<int>>, n: nat, ks: set<int>)
    requires n <= |keys|
    ensures KnownTo(keys, n, ks) <==> forall i | 0 <= i < n :: keys[i].Some? && keys[i].value in ks
  {
    if n != 0 {
      KnownExact(keys, n - 1, ks);
    }
  }

  lemma KnownIds(rows: seq<Row>, ks: set<int>)
    requires Known(Keys(rows, ID), ks)
    ensures Known(IdKeys(rows), ks)
  {
    KnownExact(Keys(rows, ID), |rows|, ks);
    KnownExact(IdKeys(rows), |rows|, ks);
  }

  lemma KnownFks(rows: seq<Row>, c: Column, ks: set<int>)
    requires Known(Keys(rows, c), ks)
    ensures Known(Fks(rows, c), ks)
  {
    KnownExact(Keys(rows, c), |rows|, ks);
    KnownExact(Fks(rows, c), |rows|, ks);
  }

  function Pick<T>(s: seq<T>, idx: seq<nat>): (out: seq<T>)
    requires forall j | 0 <= j < |idx| :: idx[j] < |s|
    ensures |out| == |idx|
    ensures forall j | 0 <= j < |idx| :: out[j] == s[idx[j]]
  {
    seq(|idx|, j requires 0 <= j < |idx| => s[idx[j]])
  }

  lemma PickSnoc<T>(s: seq<T>, idx: seq<nat>, i: nat)
    requires i < |s| && forall j | 0 <= j < |idx| :: idx[j] < |s|
    ensures Pick(s, idx + [i]) == Pick(s, idx) + [s[i]]
  {
  }

  function At<T>(s: seq<T>, i: int): Option<T>
    requires -1 <= i < |s|
  {
    if i == -1 then None else Some(s[i])
  }

  // ---------------------------------------------------------------- M2M

  /** One row of the joined groups query: the account_id column and the group's own columns. */
  datatype Link = Link(account: int, group: Row)

  function GroupIds(links: seq<Link>): (ids: seq<int>)
    ensures |ids| == |links|
    ensures forall i | 0 <= i < |links| :: ids[i] == IdOf(links[i].group)
  {
    seq(|links|, i requires 0 <= i < |links| => IdOf(links[i].group))
  }

  predicate Occurs(ids: seq<int>, n: nat, x: int)
    requires n <= |ids|
  {
    exists i | 0 <= i < n :: ids[i] == x
  }

  /** The positions below n at which a group id occurs for the first time, in order. */
  function FirstsTo(ids: seq<int>, n: nat): (idx: seq<nat>)
    requires n <= |ids|
    ensures forall j | 0 <= j < |idx| :: idx[j] < n
  {
    if n == 0 then []
    else if Occurs(ids, n - 1, ids[n - 1]) then FirstsTo(ids, n - 1)
    else FirstsTo(ids, n - 1) + [n - 1]
  }

  function Firsts(ids: seq<int>): (idx: seq<nat>)
    ensures forall j | 0 <= j < |idx| :: idx[j] < |ids|
  {
    FirstsTo(ids, |ids|)
  }

  /** FirstsTo lists exactly the first occurrences. */
  lemma {:induction false} FirstsExact(ids: seq<int>, n: nat, i: nat)
    requires n <= |ids| && i < n
    ensures i in FirstsTo(ids, n) <==> !Occurs(ids, i, ids[i])
  {
    if i < n - 1 {
      FirstsExact(ids, n - 1, i);
    }
  }

  /** The positions listed by FirstsTo increase. */
  lemma {:induction false} FirstsIncrease(ids: seq<int>, n: nat)
    requires n <= |ids|
    ensures forall j, l | 0 <= j < l < |FirstsTo(ids, n)| :: FirstsTo(ids, n)[j] < FirstsTo(ids, n)[l]
  {
    if n != 0 {
      FirstsIncrease(ids, n - 1);
    }
  }

  /** Every id occurs at one of the positions listed by Firsts. */
  lemma {:induction false} FirstsCover(ids: seq<int>, i: nat) returns (j: nat)
    requires i < |ids|
    ensures j < |Firsts(ids)| && ids[Firsts(ids)[j]] == ids[i]
    decreases i
  {
    if Occurs(ids, i, ids[i]) {
      var i' :| 0 <= i' < i && ids[i'] == ids[i];
      j := FirstsCover(ids, i');
    } else {
      FirstsExact(ids, |ids|, i);
      assert i in Firsts(ids);
      j :| 0 <= j < |Firsts(ids)| && Firsts(ids)[j] == i;
    }
  }

  /** No id occurs at two of the positions listed by Firsts. */
  lemma FirstsDistinct(ids: seq<int>, j: nat, l: nat)
    requires j < l < |Firsts(ids)|
    ensures ids[Firsts(ids)[j]] != ids[Firsts(ids)[l]]
  {
    FirstsIncrease(ids, |ids|);
    assert Firsts(ids)[l] in Firsts(ids);
    FirstsExact(ids, |ids|, Firsts(ids)[l]);
  }

  /** A join row connects the account with the group. */
  ghost predicate Linked(links: seq<Link>, account: int, group: int) {
    exists i :: 0 <= i < |links| && links[i].account == account && IdOf(links[i].group) == group
  }

  /** The neighbour positions (in first-occurrence order) of the groups linked to the account,
      among the first n neighbours. */
  ghost function Joined(links: seq<Link>, firsts: seq<nat>, n: nat, account: int): (idx: seq<nat>)
    requires n <= |firsts| && forall j | 0 <= j < |firsts| :: firsts[j] < |links|
    ensures forall j | 0 <= j < |idx| :: idx[j] < n
  {
    if n == 0 then []
    else
      var before := Joined(links, firsts, n - 1, account);
      if Linked(links, account, IdOf(links[firsts[n - 1]].group)) then before + [n - 1] else before
  }

  // ---------------------------------------------------------------- the joined groups query

  /** The groups row with the given id. */
  function GroupRow(groups: seq<Row>, id: Option<int>): Option<Row> {
    At(groups, LastHit(Keys(groups, ID), id))
  }

  /** account_groups JOIN groups, restricted to the accounts asked for and to the groups that
      satisfy the sub-query's predicates. */
  function JoinRows(joins: seq<Row>, groups: seq<Row>, accounts: set<int>, ps: seq<Pred>): (links: seq<Link>)
    ensures forall i | 0 <= i < |links| :: links[i].account in accounts
  {
    if joins == [] then []
    else
      var a := KeyOf(joins[0], AccountID);
      var g := GroupRow(groups, KeyOf(joins[0], GroupID));
      (if a.Some? && a.value in accounts && g.Some? && HoldsAll(ps, g.value) then [Link(a.value, g.value)] else [])
      + JoinRows(joins[1..], groups, accounts, ps)
  }

  function InsertLink(o: seq<OrderTerm>, x: Link, links: seq<Link>): (out: seq<Link>)
    ensures multiset(out) == multiset([x]) + multiset(links)
  {
    if links == [] || Leq(o, x.group, links[0].group) then [x] + links
    else
      assert links == [links[0]] + links[1..];
      [links[0]] + InsertLink(o, x, links[1..])
  }

  function SortLinks(o: seq<OrderTerm>, links: seq<Link>): (out: seq<Link>)
    ensures multiset(out) == multiset(links)
  {
    if links == [] then []
    else
      assert links == [links[0]] + links[1..];
      InsertLink(o, links[0], SortLinks(o, links[1..]))
  }

  function ScanLinks(links: seq<Link>, columns: seq<Column>): (out: seq<Link>)
    ensures |out| == |links|
    ensures forall i | 0 <= i < |links| :: out[i] == Link(links[i].account, Scan(links[i].group, columns))
  {
    seq(|links|, i requires 0 <= i < |links| => Link(links[i].account, Scan(links[i].group, columns)))
  }

  function ScanRows(rows: seq<Row>, columns: seq<Column>): (out: seq<Row>)
    ensures |out| == |rows|
    ensures forall i | 0 <= i < |rows| :: out[i] == Scan(rows[i], columns)
  {
    seq(|rows|, i requires 0 <= i < |rows| => Scan(rows[i], columns))
  }

  // ---------------------------------------------------------------- the values of a joined row

  function ValueAt(r: Row, c: Column): Cell {
    if c in r then r[c] else Null
  }

  function ValuesOf(r: Row, columns: seq<Column>): (vs: seq<Cell>)
    ensures |vs| == |columns| && forall i | 0 <= i < |vs| :: vs[i] == ValueAt(r, columns[i])
  {
    seq(|columns|, i requires 0 <= i < |columns| => ValueAt(r, columns[i]))
  }

  /** The joined query selects account_id and then the columns of the group. */
  function JoinedValues(l: Link, columns: seq<Column>): seq<Cell> {
    [Int(l.account)] + ValuesOf(l.group, columns)
  }

  function JoinedTable(links: seq<Link>, columns: seq<Column>): (table: seq<seq<Cell>>)
    ensures |table| == |links| && forall k | 0 <= k < |links| :: table[k] == JoinedValues(links[k], columns)
  {
    seq(|links|, k requires 0 <= k < |links| => JoinedValues(links[k], columns))
  }

  /** The Int64 field of a NullInt64: zero for NULL. */
  function Int64(v: Cell): int {
    if v.Int? then v.i else 0
  }

  /** Assigning the values column by column, each to its own field; NULL leaves the field unset. */
  function FromValues(columns: seq<Column>, values: seq<Cell>): Row
    requires |columns| == |values|
  {
    if columns == [] then map[]
    else
      var n := |columns| - 1;
      var before := FromValues(columns[..n], values[..n]);
      if values[n] == Null then before else before[columns[n] := values[n]]
  }

  lemma {:induction false} FromValuesScans(r: Row, columns: seq<Column>)
    ensures FromValues(columns, ValuesOf(r, columns)) == Scan(r, columns)
  {
    if columns != [] {
      var n := |columns| - 1;
      FromValuesScans(r, columns[..n]);
      assert ValuesOf(r, columns)[..n] == ValuesOf(r, columns[..n]);
      assert forall c :: c in columns <==> c in columns[..n] || c == columns[n];
    }
  }

  /** The table of values holds the scanned links: by position 0 the account, by position 1 the ID of
      the group, and from there on its fields. */
  ghost predicate Holding(table: seq<seq<Cell>>, links: seq<Link>, columns: seq<Column>) {
    && |table| == |links|
    && forall k | 0 <= k < |links| ::
         && |table[k]| == 1 + |columns| && Int64(table[k][0]) == links[k].account
         && (|columns| > 0 ==> Int64(table[k][1]) == IdOf(links[k].group))
         && FromValues(columns, table[k][1..]) == links[k].group
  }

  /** What the joined query returns holds the scanned links, since the ID is the first column of a
      group. */
  lemma JoinedHolding(links: seq<Link>, columns: seq<Column>)
    requires IdFirst(columns)
    ensures Holding(JoinedTable(links, columns), ScanLinks(links, columns), columns)
  {
    var table := JoinedTable(links, columns);
    forall k | 0 <= k < |links|
      ensures |table[k]| == 1 + |columns| && Int64(table[k][0]) == links[k].account
      ensures Int64(table[k][1]) == IdOf(Scan(links[k].group, columns))
      ensures FromValues(columns, table[k][1..]) == Scan(links[k].group, columns)
    {
      assert table[k][1..] == ValuesOf(links[k].group, columns);
      assert table[k][1] == ValueAt(links[k].group, ID);
      FromValuesScans(links[k].group, columns);
    }
  }

  /** The rows of the groups sub-query, after prepareQuery. */
  function LinkRows(db: Store, core: Core, accounts: set<int>): seq<Link> {
    Window(SortLinks(core.order, JoinRows(db.accountGroups.rows, db.groups.rows, accounts, core.predicates)),
           core.limit, core.offset)
  }

  // ---------------------------------------------------------------- neighbours of a batch

  function LeafAll(table: Table, core: Core, columns: seq<Column>): Outcome<seq<Row>> {
    var prepared :- Prepare(core, table.columns);
    Ok(ScanRows(Fetch(table.rows, prepared), columns))
  }

  function GroupLinks(db: Store, q: Core, base: seq<Row>): Outcome<seq<Link>> {
    var prepared :- Prepare(q, db.groups.columns);
    Ok(ScanLinks(LinkRows(db, prepared, KeySet(IdKeys(base))), IdColumns(q.fields, db.groups.columns)))
  }

  function ProxyRows(db: Store, q: Core, base: seq<Row>): Outcome<seq<Row>> {
    var fks := KeySet(Keys(base, ProxyID));
    if fks == {} then Ok([])
    else LeafAll(db.proxies, Where(q, ColumnIn(ID, fks)), IdColumns(q.fields, db.proxies.columns))
  }

  function UsageLogRows(db: Store, q: Core, base: seq<Row>): Outcome<seq<Row>> {
    var q' := WithField(q, AccountID);
    LeafAll(db.usageLogs, Where(q', ColumnIn(AccountID, KeySet(IdKeys(base)))),
            IdColumns(q'.fields, db.usageLogs.columns))
  }

  function AccountGroupRows(db: Store, q: Core, base: seq<Row>): Outcome<seq<Row>> {
    var q' := WithField(q, AccountID);
    LeafAll(db.accountGroups, Where(q', ColumnIn(AccountID, KeySet(IdKeys(base)))),
            PlainColumns(q'.fields, db.accountGroups.columns))
  }

  /** The column list of an account query: querySpec adds the foreign keys that a requested
      proxy or parent edge will need. */
  function AccountSelection(core: Core, edges: set<Edge>, all: seq<Column>): (out: seq<Column>)
    ensures ID in all ==> ID in out
    ensures core.fields != [] || (|all| > 0 && all[0] == ID) ==> |out| > 0 && out[0] == ID
    ensures Proxy in edges && ProxyID in all ==> ProxyID in out
    ensures Parent in edges && ParentAccountID in all ==> ParentAccountID in out
    ensures forall c :: c in core.fields ==> c in out
  {
    var cols := IdColumns(core.fields, all);
    if core.fields == [] then cols
    else
      var cols := if Proxy in edges then AddOnce(cols, ProxyID) else cols;
      if Parent in edges then AddOnce(cols, ParentAccountID) else cols
  }

  /** Exactly these columns: all, or the selection with the ID and the foreign keys needed. */
  lemma SelectionExact(core: Core, edges: set<Edge>, all: seq<Column>, c: Column)
    ensures c in AccountSelection(core, edges, all) <==>
              if core.fields == [] then c in all
              else c == ID || c in core.fields || (c == ProxyID && Proxy in edges)
                   || (c == ParentAccountID && Parent in edges)
  {
  }

  /** The selections of the usage log and the account group sub-queries: the foreign key is added. */
  lemma OwnedSelectionExact(q: Core, all: seq<Column>, c: Column)
    ensures c in IdColumns(WithField(q, AccountID).fields, all) <==>
              if q.fields == [] then c in all else c == ID || c in q.fields || c == AccountID
    ensures c in PlainColumns(WithField(q, AccountID).fields, all) <==>
              if q.fields == [] then c in all else c in q.fields || c == AccountID
  {
  }

  function LoadedTypes(edges: set<Edge>): seq<bool> {
    [Groups in edges, Proxy in edges, Parent in edges, Children in edges, UsageLogs in edges, AccountGroups in edges]
  }

  /** Everything fetched for one batch of nodes. */
  datatype Neighbours = Neighbours(
    links: seq<Link>,
    proxies: seq<Row>,
    parents: seq<View>,
    children: seq<View>,
    usageLogs: seq<Row>,
    accountGroups: seq<Row>)

  /** The distinct groups of a joined result, in first-occurrence order. */
  function Members(links: seq<Link>): (rows: seq<Row>)
    ensures |rows| == |Firsts(GroupIds(links))|
  {
    MembersTo(links, |links|)
  }

  function MembersTo(links: seq<Link>, n: nat): (rows: seq<Row>)
    requires n <= |links|
    ensures |rows| == |FirstsTo(GroupIds(links), n)|
    ensures forall j | 0 <= j < |rows| :: rows[j] == links[FirstsTo(GroupIds(links), n)[j]].group
  {
    var firsts := FirstsTo(GroupIds(links), n);
    seq(|firsts|, j requires 0 <= j < |firsts| => links[firsts[j]].group)
  }

  /** The groups of one account: those a join row links to it. */
  ghost function GroupsOf(links: seq<Link>, account: int): seq<Row> {
    var firsts := Firsts(GroupIds(links));
    Pick(Members(links), Joined(links, firsts, |firsts|, account))
  }

  ghost function ProxyOf(proxies: seq<Row>, f: Row): Option<Row> {
    At(proxies, LastHit(IdKeys(proxies), KeyOf(f, ProxyID)))
  }

  ghost function ParentOf(parents: seq<View>, f: Row): Option<View> {
    At(parents, LastHit(IdKeys(FieldsOf(parents)), KeyOf(f, ParentAccountID)))
  }

  ghost function ChildrenOf(children: seq<View>, id: int): seq<View> {
    Pick(children, Hits(Keys(FieldsOf(children), ParentAccountID), id))
  }

  ghost function OwnedRows(rows: seq<Row>, id: int): seq<Row> {
    Pick(rows, Hits(Fks(rows, AccountID), id))
  }

  ghost function GroupsSlice(edges: set<Edge>, links: seq<Link>, f: Row): Slice<Row> {
    if Groups in edges then Items(GroupsOf(links, IdOf(f))) else Nil
  }

  ghost function ProxySlot(edges: set<Edge>, proxies: seq<Row>, f: Row): Option<Row> {
    if Proxy in edges then ProxyOf(proxies, f) else None
  }

  ghost function ParentSlot(edges: set<Edge>, parents: seq<View>, f: Row): Option<View> {
    if Parent in edges then ParentOf(parents, f) else None
  }

  ghost function ChildrenSlice(edges: set<Edge>, children: seq<View>, f: Row): Slice<View> {
    if Children in edges then Items(ChildrenOf(children, IdOf(f))) else Nil
  }

  ghost function OwnedSlice(edges: set<Edge>, e: Edge, rows: seq<Row>, f: Row): Slice<Row> {
    if e in edges then Items(OwnedRows(rows, IdOf(f))) else Nil
  }

  /** One node joined with the neighbours of its batch: a scan over the neighbours per node. */
  ghost function Join(edges: set<Edge>, f: Row, nb: Neighbours): View {
    View(
      f,
      LoadedTypes(edges),
      GroupsSlice(edges, nb.links, f),
      ProxySlot(edges, nb.proxies, f),
      ParentSlot(edges, nb.parents, f),
      ChildrenSlice(edges, nb.children, f),
      OwnedSlice(edges, UsageLogs, nb.usageLogs, f),
      OwnedSlice(edges, AccountGroups, nb.accountGroups, f))
  }

  ghost function JoinAll(edges: set<Edge>, base: seq<Row>, nb: Neighbours): (vs: seq<View>)
    ensures |vs| == |base|
    ensures forall i | 0 <= i < |base| :: vs[i] == Join(edges, base[i], nb)
  {
    seq(|base|, i requires 0 <= i < |base| => Join(edges, base[i], nb))
  }

  /** The parents asked for by a batch; no query is issued when no node has a parent. */
  ghost function ParentViews(db: Store, q: Request, base: seq<Row>): Outcome<seq<View>>
    decreases q, 3
  {
    var fks := KeySet(Keys(base, ParentAccountID));
    if fks == {} then Ok([]) else Run(db, q, Where(q.core, ColumnIn(ID, fks)))
  }

  ghost function ChildViews(db: Store, q: Request, base: seq<Row>): Outcome<seq<View>>
    decreases q, 3
  {
    Run(db, q, Where(WithField(q.core, ParentAccountID), ColumnIn(ParentAccountID, KeySet(IdKeys(base)))))
  }

  /** The edges are loaded one after the other; the first refused sub-query stops the load. */
  function Assemble(links: Outcome<seq<Link>>, proxies: Outcome<seq<Row>>, parents: Outcome<seq<View>>,
                    children: Outcome<seq<View>>, logs: Outcome<seq<Row>>, ags: Outcome<seq<Row>>): Outcome<Neighbours>
  {
    var links :- links;
    var proxies :- proxies;
    var parents :- parents;
    var children :- children;
    var logs :- logs;
    var ags :- ags;
    Ok(Neighbours(links, proxies, parents, children, logs, ags))
  }

  function LinksPart(db: Store, q: Request, base: seq<Row>): Outcome<seq<Link>> {
    if Groups in q.with then GroupLinks(db, q.with[Groups].core, base) else Ok([])
  }

  function ProxiesPart(db: Store, q: Request, base: seq<Row>): Outcome<seq<Row>> {
    if Proxy in q.with then ProxyRows(db, q.with[Proxy].core, base) else Ok([])
  }

  ghost function ParentsPart(db: Store, q: Request, base: seq<Row>): Outcome<seq<View>>
    decreases q, 0
  {
    if Parent in q.with then ParentViews(db, q.with[Parent], base) else Ok([])
  }

  ghost function ChildrenPart(db: Store, q: Request, base: seq<Row>): Outcome<seq<View>>
    decreases q, 0
  {
    if Children in q.with then ChildViews(db, q.with[Children], base) else Ok([])
  }

  function LogsPart(db: Store, q: Request, base: seq<Row>): Outcome<seq<Row>> {
    if UsageLogs in q.with then UsageLogRows(db, q.with[UsageLogs].core, base) else Ok([])
  }

  function AccountGroupsPart(db: Store, q: Request, base: seq<Row>): Outcome<seq<Row>> {
    if AccountGroups in q.with then AccountGroupRows(db, q.with[AccountGroups].core, base) else Ok([])
  }

  /** The neighbours of a batch, edge by edge. */
  ghost function Gather(db: Store, q: Request, base: seq<Row>): Outcome<Neighbours>
    decreases q, 1
  {
    Assemble(LinksPart(db, q, base), ProxiesPart(db, q, base), ParentsPart(db, q, base),
             ChildrenPart(db, q, base), LogsPart(db, q, base), AccountGroupsPart(db, q, base))
  }

  /** The base entities of a request whose own part is the given, prepared core. */
  function Base(db: Store, core: Core, edges: set<Edge>): seq<Row> {
    ScanRows(Fetch(db.accounts.rows, core), AccountSelection(core, edges, db.accounts.columns))
  }

  /** The result of running an account request with the given own part: the base rows, each joined
      with the neighbours that were fetched for all of them together. */
  ghost function Run(db: Store, q: Request, core: Core): Outcome<seq<View>>
    decreases q, 2
  {
    var prepared :- Prepare(core, db.accounts.columns);
    var base := Base(db, prepared, q.with.Keys);
    if base == [] then Ok([])
    else
      var nb :- Gather(db, q, base);
      Ok(JoinAll(q.with.Keys, base, nb))
  }

  /** Only the edges of a request, not its stored core, matter once the core is given. */
  lemma RunCore(db: Store, q: Request, q': Request, core: Core)
    requires q'.with == q.with
    ensures Run(db, q', core) == Run(db, q, core)
  {
    var prepared := Prepare(core, db.accounts.columns);
    if prepared.Ok? {
      GatherCore(db, q, q', Base(db, prepared.value, q.with.Keys));
    }
  }

  lemma GatherCore(db: Store, q: Request, q': Request, base: seq<Row>)
    requires q'.with == q.with
    ensures Gather(db, q', base) == Gather(db, q, base)
  {
  }

  lemma GatherSucceeds(db: Store, q: Request, base: seq<Row>, nb: Neighbours)
    requires LinksPart(db, q, base) == Ok(nb.links) && ProxiesPart(db, q, base) == Ok(nb.proxies)
    requires ParentsPart(db, q, base) == Ok(nb.parents) && ChildrenPart(db, q, base) == Ok(nb.children)
    requires LogsPart(db, q, base) == Ok(nb.usageLogs) && AccountGroupsPart(db, q, base) == Ok(nb.accountGroups)
    ensures Gather(db, q, base) == Ok(nb)
  {
  }

  /** The entities of a result are the scanned base rows, in order. */
  lemma RunFields(db: Store, q: Request, core: Core)
    requires Run(db, q, core).Ok?
    ensures FieldsOf(Run(db, q, core).value) == Base(db, Prepare(core, db.accounts.columns).value, q.with.Keys)
  {
  }

  /** The neighbours of a batch, given those of the two account edges. */
  lemma GatherWith(db: Store, q: Request, base: seq<Row>, parents: seq<View>, children: seq<View>)
    returns (nb: Neighbours)
    requires LinksPart(db, q, base).Ok? && ProxiesPart(db, q, base).Ok? && LogsPart(db, q, base).Ok?
    requires AccountGroupsPart(db, q, base).Ok?
    requires ParentsPart(db, q, base) == Ok(parents) && ChildrenPart(db, q, base) == Ok(children)
    ensures Gather(db, q, base) == Ok(nb) && nb.parents == parents && nb.children == children
    ensures LinksPart(db, q, base) == Ok(nb.links) && ProxiesPart(db, q, base) == Ok(nb.proxies)
    ensures LogsPart(db, q, base) == Ok(nb.usageLogs) && AccountGroupsPart(db, q, base) == Ok(nb.accountGroups)
  {
    nb := Neighbours(LinksPart(db, q, base).value, ProxiesPart(db, q, base).value, parents, children,
                     LogsPart(db, q, base).value, AccountGroupsPart(db, q, base).value);
    GatherSucceeds(db, q, base, nb);
  }

  lemma RunIs(db: Store, q: Request, core: Core, prepared: Core, nb: Neighbours)
    requires Prepare(core, db.accounts.columns) == Ok(prepared) && Base(db, prepared, q.with.Keys) != []
    requires Gather(db, q, Base(db, prepared, q.with.Keys)) == Ok(nb)
    ensures Run(db, q, core) == Ok(JoinAll(q.with.Keys, Base(db, prepared, q.with.Keys), nb))
  {
  }
}
