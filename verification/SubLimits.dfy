/** Windows on sub-queries are windows on the whole batch: for every LIMIT, every OFFSET and every
    combination, under any base query that returns two accounts, there is a store on which batched
    loading differs from loading per node. */
module SubLimits {
  import opened Schema
  import opened Store
  import opened QueryFacts
  import opened EagerSpec
  import opened Windows
  import opened PerNodeSpec
  import opened Batches
  import opened PerNode
  import Projection

  // ---------------------------------------------------------------- the store

  function Log(id: int, account: int): Row {
    map[ID := Int(id), AccountID := Int(account)]
  }

  /** One log of account b, then n - 1 logs of account a. */
  function Logs(n: nat, a: int, b: int): (rows: seq<Row>)
    requires n > 0
    ensures |rows| == n
    ensures forall i | 0 <= i < n :: rows[i] == Log(i, if i == 0 then b else a)
  {
    seq(n, i requires 0 <= i < n => Log(i, if i == 0 then b else a))
  }

  const LogColumns: seq<Column> := [ID, AccountID]

  /** The accounts r and s, and n usage logs. */
  function TwoAccounts(columns: seq<Column>, r: Row, s: Row, n: nat): Store
    requires n > 0
  {
    Store(Table(columns, [r, s]), Table([ID], []), Table([ID], []), Table(LogColumns, Logs(n, IdOf(r), IdOf(s))),
          Table([AccountID], []))
  }

  /** The base query is answered, has no window, and returns the accounts r and s. */
  ghost predicate Admits(core: Core, columns: seq<Column>, r: Row, s: Row) {
    && Unwindowed(core) && Prepare(core, columns).Ok?
    && ID in columns && ProxyID in columns && ParentAccountID in columns
    && KeyOf(r, ID).Some? && KeyOf(s, ID).Some? && IdOf(r) != IdOf(s)
    && HoldsAll(Traverse(core).predicates, r) && HoldsAll(Traverse(core).predicates, s)
  }

  /** The sub-query is answered and passes every log. */
  ghost predicate AdmitsLogs(sub: Core) {
    && |sub.order| == 0 && Prepare(sub, LogColumns).Ok?
    && forall id, account :: HoldsAll(Traverse(sub).predicates, Log(id, account))
  }

  /** The accounts of the base query with their usage logs. */
  function WithLogs(core: Core, sub: Core): Request {
    Request(core, map[UsageLogs := Request(sub, map[])])
  }

  lemma TwoAccountsValid(core: Core, columns: seq<Column>, r: Row, s: Row, n: nat)
    requires n > 0 && Admits(core, columns, r, s)
    ensures TwoAccounts(columns, r, s, n).Valid() && PrimaryKey(TwoAccounts(columns, r, s, n).usageLogs.rows)
  {
    var logs := Logs(n, IdOf(r), IdOf(s));
    forall i | 0 <= i < n ensures KeyOf(logs[i], ID) == Some(i) && KeyOf(logs[i], AccountID).Some? {
      assert logs[i][ID] == Int(i);
    }
  }

  // ---------------------------------------------------------------- what is fetched

  lemma {:induction false} FilterKeepsAll(ps: seq<Pred>, rows: seq<Row>)
    requires forall i | 0 <= i < |rows| :: HoldsAll(ps, rows[i])
    ensures Filter(ps, rows) == rows
  {
    if rows != [] {
      FilterKeepsAll(ps, rows[1..]);
      assert rows == [rows[0]] + rows[1..];
    }
  }

  lemma {:induction false} SortWithoutTerms(rows: seq<Row>)
    ensures Sort([], rows) == rows
  {
    if rows != [] {
      SortWithoutTerms(rows[1..]);
      assert rows == [rows[0]] + rows[1..];
    }
  }

  lemma FetchEverything(rows: seq<Row>, core: Core)
    requires core.order == [] && Unwindowed(core) && forall i | 0 <= i < |rows| :: HoldsAll(core.predicates, rows[i])
    ensures Fetch(rows, core) == rows
  {
    FilterKeepsAll(core.predicates, rows);
    SortWithoutTerms(rows);
  }

  /** Whatever its order terms, the base query asks for the logs of both accounts. */
  lemma TwoKeys(db: Store, core: Core, r: Row, s: Row)
    requires Admits(core, db.accounts.columns, r, s) && db.accounts.rows == [r, s]
    ensures KeySet(IdKeys(Base(db, Traverse(core), {UsageLogs}))) == {IdOf(r), IdOf(s)}
  {
    TwoFetched(Traverse(core), r, s);
    ScannedIds(Fetch([r, s], Traverse(core)), AccountSelection(core, {UsageLogs}, db.accounts.columns), r, s);
  }

  lemma TwoFetched(core: Core, r: Row, s: Row)
    requires Unwindowed(core) && HoldsAll(core.predicates, r) && HoldsAll(core.predicates, s)
    ensures r in Fetch([r, s], core) && s in Fetch([r, s], core)
    ensures forall i | 0 <= i < |Fetch([r, s], core)| :: Fetch([r, s], core)[i] == r || Fetch([r, s], core)[i] == s
  {
    FetchComplete([r, s], core, r);
    FetchComplete([r, s], core, s);
    forall i | 0 <= i < |Fetch([r, s], core)| ensures Fetch([r, s], core)[i] in [r, s] {
      FetchHolds([r, s], core, i);
    }
  }

  lemma ScannedIds(rows: seq<Row>, columns: seq<Column>, r: Row, s: Row)
    requires ID in columns && r in rows && s in rows && forall i | 0 <= i < |rows| :: rows[i] == r || rows[i] == s
    requires KeyOf(r, ID).Some? && KeyOf(s, ID).Some?
    ensures KeySet(IdKeys(ScanRows(rows, columns))) == {IdOf(r), IdOf(s)}
  {
    var keys := IdKeys(ScanRows(rows, columns));
    KeysExact(keys, |keys|);
    forall i | 0 <= i < |rows| ensures keys[i] == Some(IdOf(rows[i])) {
      assert KeyOf(Scan(rows[i], columns), ID) == KeyOf(rows[i], ID);
    }
    var i :| 0 <= i < |rows| && rows[i] == r;
    var j :| 0 <= j < |rows| && rows[j] == s;
    assert keys[i] == Some(IdOf(r)) && keys[j] == Some(IdOf(s));
    forall k ensures k in KeySet(keys) ==> k == IdOf(r) || k == IdOf(s) {
      if k in KeySet(keys) {
        var l :| 0 <= l < |keys| && keys[l] == Some(k);
        assert rows[l] == r || rows[l] == s;
      }
    }
  }

  /** Without the window the batch has all logs. */
  lemma LogOwners(n: nat, sub: Core, a: int, b: int)
    requires n > 0 && AdmitsLogs(sub)
    ensures var owners := Owners(Table(LogColumns, Logs(n, a, b)), sub, AccountID, {a, b});
            |owners| == n && forall i | 0 <= i < n :: owners[i] == Some(if i == 0 then b else a)
  {
    var core := Traverse(Where(Unlimited(sub), ColumnIn(AccountID, {a, b})));
    forall i | 0 <= i < n ensures HoldsAll(core.predicates, Logs(n, a, b)[i]) {
      WhereHolds(Unlimited(sub), AccountID, {a, b}, Logs(n, a, b)[i]);
      HoldsBoth(sub.predicates, Traversed(sub.inters), Logs(n, a, b)[i]);
    }
    FetchEverything(Logs(n, a, b), core);
  }

  // ---------------------------------------------------------------- the failure

  /** How many logs it takes to break a window. */
  function Enough(limit: Option<nat>, offset: Option<nat>): (n: nat)
    requires Bounded(limit) || Skip(offset) > 0
    ensures n > 1
  {
    if Skip(offset) > 0 then Skip(offset) + 1 else limit.value + 1
  }

  lemma MixedDoesNotFit(keys: seq<Option<int>>, limit: Option<nat>, offset: Option<nat>, a: int, b: int)
    requires (Bounded(limit) || Skip(offset) > 0) && a != b
    requires |keys| == Enough(limit, offset) && forall i | 0 <= i < |keys| :: keys[i] == Some(if i == 0 then b else a)
    ensures !Fits(keys, limit, offset)
  {
    assert keys[0] != keys[1];
  }

  lemma DoesNotConform(core: Core, columns: seq<Column>, r: Row, s: Row, sub: Core, n: nat, base: seq<Row>)
    requires (Bounded(sub.limit) || Skip(sub.offset) > 0) && n == Enough(sub.limit, sub.offset) && AdmitsLogs(sub)
    requires IdOf(r) != IdOf(s) && KeySet(IdKeys(base)) == {IdOf(r), IdOf(s)}
    ensures !Conforms(TwoAccounts(columns, r, s, n), WithLogs(core, sub), base)
  {
    LogOwners(n, sub, IdOf(r), IdOf(s));
    MixedDoesNotFit(Owners(Table(LogColumns, Logs(n, IdOf(r), IdOf(s))), sub, AccountID, {IdOf(r), IdOf(s)}),
                    sub.limit, sub.offset, IdOf(r), IdOf(s));
  }

  lemma LogsAnswered(core: Core, sub: Core, db: Store)
    requires Prepare(sub, db.usageLogs.columns).Ok?
    ensures Projection.AllAnswered(db, WithLogs(core, sub)) && WithLogs(core, sub).with.Keys == {UsageLogs}
    ensures PrimaryKey(db.usageLogs.rows) ==> Telling(db, WithLogs(core, sub))
  {
  }

  lemma NotPerNode(db: Store, q: Request, core: Core)
    requires db.Valid() && Telling(db, q) && Projection.AllAnswered(db, q) && Prepare(core, db.accounts.columns).Ok?
    requires !Conforms(db, q, Base(db, Traverse(core), q.with.Keys))
    ensures Run(db, q, core).Ok? && !SameAll(false, Run(db, q, core).value, Nodes(db, q, core))
  {
    Projection.SelectionKeepsGraph(db, q, core);
    BatchIsPerNodeIff(db, q, core);
  }

  /** For every window that cuts at all, and every base query with whatever predicates, interceptors,
      order and selection that returns two accounts, there is a store of these accounts on which the
      batched load succeeds and is not the load per node. */
  lemma WindowBreaksBatching(core: Core, columns: seq<Column>, r: Row, s: Row, sub: Core) returns (db: Store)
    requires Admits(core, columns, r, s) && AdmitsLogs(sub) && (Bounded(sub.limit) || Skip(sub.offset) > 0)
    ensures db.Valid() && db.accounts == Table(columns, [r, s]) && Run(db, WithLogs(core, sub), core).Ok?
    ensures !SameAll(false, Run(db, WithLogs(core, sub), core).value, Nodes(db, WithLogs(core, sub), core))
  {
    var n := Enough(sub.limit, sub.offset);
    db := TwoAccounts(columns, r, s, n);
    TwoAccountsValid(core, columns, r, s, n);
    LogsAnswered(core, sub, db);
    TwoKeys(db, core, r, s);
    DoesNotConform(core, columns, r, s, sub, n, Base(db, Traverse(core), {UsageLogs}));
    NotPerNode(db, WithLogs(core, sub), core);
  }

  /** In particular every LIMIT. */
  lemma LimitBreaksBatching(core: Core, columns: seq<Column>, r: Row, s: Row, k: nat) returns (db: Store)
    requires Admits(core, columns, r, s) && k >= 1
    ensures var q := WithLogs(core, EmptyCore.(limit := Some(k)));
            db.Valid() && Run(db, q, core).Ok? && !SameAll(false, Run(db, q, core).value, Nodes(db, q, core))
  {
    db := WindowBreaksBatching(core, columns, r, s, EmptyCore.(limit := Some(k)));
  }
}
