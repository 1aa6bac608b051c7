/** The table store and the meaning of one SELECT: filter, stable sort, window. */
module Store {
  import opened Schema

  /** A WHERE term: a caller's test on the row, or `column IN (keys)` as the loaders add it. */
  datatype Pred = Test(test: Row -> bool) | ColumnIn(column: Column, keys: set<int>)

  predicate Holds(p: Pred, r: Row) {
    match p
    case Test(f) => f(r)
    case ColumnIn(c, keys) => KeyOf(r, c).Some? && KeyOf(r, c).value in keys
  }

  predicate HoldsAll(ps: seq<Pred>, r: Row) {
    forall i | 0 <= i < |ps| :: Holds(ps[i], r)
  }

  /** An interceptor of a query: one the runtime package never filled in, a traverser that adds
      a predicate (as the soft-delete mixin does), or one without a Traverse method. */
  datatype Interceptor = Uninitialized | Traverser(pred: Pred) | Plain

  /** An ORDER BY term, given by the rank of a row. */
  type OrderTerm = Row -> int

  /** A selector modifier; ForUpdate and ForShare are the two the builder itself adds. */
  datatype Modifier = ForUpdate | ForShare

  /** What one builder says about its own table. */
  datatype Core = Core(
    predicates: seq<Pred>,
    inters: seq<Interceptor>,
    order: seq<OrderTerm>,
    limit: Option<nat>,
    offset: Option<nat>,
    unique: Option<bool>,
    fields: seq<Column>,
    modifiers: seq<Modifier>)

  const EmptyCore := Core([], [], [], None, None, None, [], [])

  datatype Table = Table(columns: seq<Column>, rows: seq<Row>)

  datatype Store = Store(
    accounts: Table,
    groups: Table,
    proxies: Table,
    usageLogs: Table,
    accountGroups: Table)
  {
    /** Primary keys are set and distinct, the NOT NULL references are set, and the ID is the first
        column of a group. */
    ghost predicate Valid() {
      && PrimaryKey(accounts.rows) && PrimaryKey(groups.rows) && PrimaryKey(proxies.rows)
      && ID in accounts.columns && ProxyID in accounts.columns && ParentAccountID in accounts.columns
      && IdFirst(groups.columns) && ID in proxies.columns
      && ID in usageLogs.columns && AccountID in usageLogs.columns && AccountID in accountGroups.columns
      && (forall i | 0 <= i < |usageLogs.rows| :: KeyOf(usageLogs.rows[i], AccountID).Some?)
      && (forall i | 0 <= i < |accountGroups.rows| :: KeyOf(accountGroups.rows[i], AccountID).Some?)
    }
  }

  predicate IdFirst(columns: seq<Column>) {
    |columns| > 0 && columns[0] == ID
  }

  ghost predicate PrimaryKey(rows: seq<Row>) {
    && (forall i | 0 <= i < |rows| :: KeyOf(rows[i], ID).Some?)
    && (forall i, j | 0 <= i < j < |rows| :: IdOf(rows[i]) != IdOf(rows[j]))
  }

  datatype Error = UninitializedInterceptor | InvalidField(column: Column) | Unexpected

  datatype Outcome<+T> = Ok(value: T) | Err(error: Error) {
    predicate IsFailure() { Err? }
    function PropagateFailure<U>(): Outcome<U> requires Err? { Err(error) }
    function Extract(): T requires Ok? { value }
  }

  /** The predicates that the traversers among the interceptors add. */
  function Traversed(inters: seq<Interceptor>): seq<Pred> {
    if inters == [] then [] else
      (if inters[0].Traverser? then [inters[0].pred] else []) + Traversed(inters[1..])
  }

  function FirstInvalid(fields: seq<Column>, columns: seq<Column>): (c: Option<Column>)
    ensures c.None? <==> forall i | 0 <= i < |fields| :: fields[i] in columns
  {
    if fields == [] then None
    else if fields[0] !in columns then Some(fields[0])
    else
      assert forall i | 0 < i < |fields| :: fields[i] == fields[1..][i - 1];
      FirstInvalid(fields[1..], columns)
  }

  /** prepareQuery: run the traversers, then validate the selected fields. */
  function Prepare(core: Core, columns: seq<Column>): (r: Outcome<Core>)
    ensures r.Ok? ==> r.value == core.(predicates := core.predicates + Traversed(core.inters))
    ensures r.Ok? <==> Uninitialized !in core.inters && forall i | 0 <= i < |core.fields| :: core.fields[i] in columns
  {
    if exists i | 0 <= i < |core.inters| :: core.inters[i].Uninitialized? then Err(UninitializedInterceptor)
    else
      match FirstInvalid(core.fields, columns)
      case Some(c) => Err(InvalidField(c))
      case None => Ok(core.(predicates := core.predicates + Traversed(core.inters)))
  }

  /** The predicates that prepareQuery adds from interceptor n on, until an uninitialised one. */
  function Reached(inters: seq<Interceptor>, n: nat): seq<Pred>
    requires n <= |inters|
    decreases |inters| - n
  {
    if n == |inters| || inters[n].Uninitialized? then []
    else (if inters[n].Traverser? then [inters[n].pred] else []) + Reached(inters, n + 1)
  }

  /** What prepareQuery leaves behind in the builder, whether it succeeds or not. */
  function Attempted(core: Core): Core {
    core.(predicates := core.predicates + Reached(core.inters, 0))
  }

  lemma {:induction false} ReachedAll(inters: seq<Interceptor>, n: nat)
    requires Uninitialized !in inters && n <= |inters|
    ensures Reached(inters, n) == Traversed(inters[n..])
    decreases |inters| - n
  {
    if n < |inters| {
      ReachedAll(inters, n + 1);
      assert inters[n..][1..] == inters[n + 1..];
    }
  }

  /** On success what is left behind is the prepared query. */
  lemma AttemptedIs(core: Core)
    ensures Uninitialized !in core.inters ==>
              Attempted(core) == core.(predicates := core.predicates + Traversed(core.inters))
  {
    if Uninitialized !in core.inters {
      ReachedAll(core.inters, 0);
      assert core.inters[0..] == core.inters;
    }
  }

  lemma {:induction false} FirstInvalidIs(fields: seq<Column>, columns: seq<Column>, j: nat)
    requires j < |fields| && fields[j] !in columns && forall i | 0 <= i < j :: fields[i] in columns
    ensures FirstInvalid(fields, columns) == Some(fields[j])
  {
    if j > 0 {
      FirstInvalidIs(fields[1..], columns, j - 1);
    }
  }

  /** Why a query is refused: an uninitialised interceptor first, then the first selected field that is
      no column. */
  lemma PrepareRefuses(core: Core, columns: seq<Column>, j: nat)
    ensures Uninitialized in core.inters ==> Prepare(core, columns) == Err(UninitializedInterceptor)
    ensures Uninitialized !in core.inters && j < |core.fields| && core.fields[j] !in columns
              && (forall i | 0 <= i < j :: core.fields[i] in columns) ==>
              Prepare(core, columns) == Err(InvalidField(core.fields[j]))
  {
    if j < |core.fields| && core.fields[j] !in columns && forall i | 0 <= i < j :: core.fields[i] in columns {
      FirstInvalidIs(core.fields, columns, j);
    }
  }

  function Filter(ps: seq<Pred>, rows: seq<Row>): (out: seq<Row>)
    ensures forall i | 0 <= i < |out| :: out[i] in rows && HoldsAll(ps, out[i])
  {
    if rows == [] then []
    else if HoldsAll(ps, rows[0]) then [rows[0]] + Filter(ps, rows[1..])
    else Filter(ps, rows[1..])
  }

  /** The lexicographic comparison of two rows by the order terms. */
  predicate Leq(o: seq<OrderTerm>, a: Row, b: Row) {
    o == [] || o[0](a) < o[0](b) || (o[0](a) == o[0](b) && Leq(o[1..], a, b))
  }

  function Insert(o: seq<OrderTerm>, x: Row, rows: seq<Row>): (out: seq<Row>)
    ensures multiset(out) == multiset([x]) + multiset(rows)
  {
    if rows == [] || Leq(o, x, rows[0]) then [x] + rows
    else
      assert rows == [rows[0]] + rows[1..];
      [rows[0]] + Insert(o, x, rows[1..])
  }

  /** A stable sort: rows that compare equal keep their table order. */
  function Sort(o: seq<OrderTerm>, rows: seq<Row>): (out: seq<Row>)
    ensures multiset(out) == multiset(rows)
  {
    if rows == [] then []
    else
      assert rows == [rows[0]] + rows[1..];
      Insert(o, rows[0], Sort(o, rows[1..]))
  }

  /** LIMIT and OFFSET; the query layer treats a limit or offset of zero as absent. */
  function Window<T>(s: seq<T>, limit: Option<nat>, offset: Option<nat>): seq<T> {
    var from := if offset.Some? then (if offset.value <= |s| then offset.value else |s|) else 0;
    var rest := s[from..];
    if limit.Some? && 0 < limit.value < |rest| then rest[..limit.value] else rest
  }

  /** The rows one builder selects from its table: what QueryNodes hands back. */
  function Fetch(rows: seq<Row>, core: Core): seq<Row> {
    Window(Sort(core.order, Filter(core.predicates, rows)), core.limit, core.offset)
  }

  function AddOnce(columns: seq<Column>, c: Column): (out: seq<Column>)
    ensures c in out
    ensures forall d :: d in out <==> d in columns || d == c
    ensures |columns| > 0 ==> |out| > 0 && out[0] == columns[0]
  {
    if c in columns then columns else columns + [c]
  }

  function WithoutId(fields: seq<Column>): (out: seq<Column>)
    ensures forall c :: c in out <==> c in fields && c != ID
  {
    if fields == [] then [] else
      (if fields[0] != ID then [fields[0]] else []) + WithoutId(fields[1..])
  }

  /** The column list of a table that has an id: all columns, or id followed by the selection. */
  function IdColumns(fields: seq<Column>, all: seq<Column>): (out: seq<Column>)
    ensures fields != [] || (|all| > 0 && all[0] == ID) ==> |out| > 0 && out[0] == ID
    ensures forall c :: c in out <==> if fields == [] then c in all else c == ID || c in fields
  {
    if fields == [] then all else [ID] + WithoutId(fields)
  }

  /** The column list of the account_groups table, which has no id column. */
  function PlainColumns(fields: seq<Column>, all: seq<Column>): seq<Column> {
    if fields == [] then all else fields
  }

  /** AppendFieldOnce, applied by the O2M loaders only to a non-empty selection. */
  function WithField(core: Core, c: Column): Core {
    if core.fields == [] then core else core.(fields := AddOnce(core.fields, c))
  }

  function Where(core: Core, p: Pred): Core {
    core.(predicates := core.predicates + [p])
  }
}
