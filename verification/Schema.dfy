/** Columns, cells and rows: the vocabulary shared by the query, scan and create models. */
module Schema {

  datatype Option<+T> = None | Some(value: T)

  /** Column names.  The first thirty-two are the columns of the accounts table, in table order;
      AccountID and GroupID belong to the tables that refer to accounts; any other name that a
      selection or a result set may carry is Other. */
  datatype Column =
    | ID | CreatedAt | UpdatedAt | DeletedAt | Name | Notes | Platform | Type
    | Credentials | Extra | ProxyID | ProxyFallbackOriginID | Concurrency | LoadFactor
    | Priority | RateMultiplier | Status | ErrorMessage | LastUsedAt | ExpiresAt
    | AutoPauseOnExpired | Schedulable | RateLimitedAt | RateLimitResetAt | OverloadUntil
    | TempUnschedulableUntil | TempUnschedulableReason | SessionWindowStart
    | SessionWindowEnd | SessionWindowStatus | ParentAccountID | QuotaDimension
    | AccountID | GroupID
    | Other(name: string)

  /** A database value.  Times are instants on an integer line; a Json value stands for a
      decoded document. */
  datatype Cell =
    | Null
    | Int(i: int)
    | Bool(b: bool)
    | Float(r: real)
    | Text(s: string)
    | Time(t: int)
    | Json(doc: string)

  /** A table row, and also the field part of a loaded entity.  In an entity a column that is
      missing from the map is a field left at its Go zero value (nil for a pointer field). */
  type Row = map<Column, Cell>

  /** The integer stored in column c, if there is one. */
  function KeyOf(r: Row, c: Column): (k: Option<int>)
    ensures k.Some? <==> c in r && r[c].Int?
    ensures k.Some? ==> r[c] == Int(k.value)
  {
    if c in r && r[c].Int? then Some(r[c].i) else None
  }

  /** The ID field of an entity: zero until a non-NULL id column was scanned. */
  function IdOf(r: Row): int {
    if KeyOf(r, ID).Some? then KeyOf(r, ID).value else 0
  }

  /** The entity fields obtained by scanning the given columns of a row: a selected column
      carries its value, and NULL leaves the field unset. */
  function Scan(row: Row, columns: seq<Column>): (e: Row)
    ensures forall c :: c in e <==> c in columns && c in row && row[c] != Null
    ensures forall c :: c in e ==> e[c] == row[c]
  {
    map c | c in columns && c in row && row[c] != Null :: row[c]
  }
}
