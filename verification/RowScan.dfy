/** Account.scanValues and Account.assignValues, and reading back a row that createSpec wrote. */
module RowScan {
  import opened Schema

  // ---------------------------------------------------------------- holders

  /** A scan destination.  The flag of a nullable holder is its Valid field; a byte slice has none
      and stays empty for NULL. */
  datatype Holder =
    | Bytes(bytes: string)
    | NullBool(b: bool, valid: bool)
    | NullFloat(r: real, valid: bool)
    | NullInt(i: int, valid: bool)
    | NullString(s: string, valid: bool)
    | NullTime(t: int, valid: bool)
    | Unknown(cell: Cell)

  /** The fresh holder scanValues makes for a column. */
  function HolderFor(c: Column): Holder {
    match c
    case Credentials | Extra => Bytes("")
    case AutoPauseOnExpired | Schedulable => NullBool(false, false)
    case RateMultiplier => NullFloat(0.0, false)
    case ID | ProxyID | ProxyFallbackOriginID | Concurrency | LoadFactor | Priority | ParentAccountID => NullInt(0,
        false)
    case Name | Notes | Platform | Type | Status | ErrorMessage | TempUnschedulableReason | SessionWindowStatus
       | QuotaDimension =>
      NullString("", false)
    case CreatedAt | UpdatedAt | DeletedAt | LastUsedAt | ExpiresAt | RateLimitedAt | RateLimitResetAt | OverloadUntil
       | TempUnschedulableUntil | SessionWindowStart | SessionWindowEnd => NullTime(0, false)
    case _ => Unknown(Null)
  }

  /** Both holders have the same dynamic type. */
  predicate SameType(g: Holder, h: Holder) {
    match g
    case Bytes(_) => h.Bytes?
    case NullBool(_, _) => h.NullBool?
    case NullFloat(_, _) => h.NullFloat?
    case NullInt(_, _) => h.NullInt?
    case NullString(_, _) => h.NullString?
    case NullTime(_, _) => h.NullTime?
    case Unknown(_) => h.Unknown?
  }

  method ScanValues(columns: seq<Column>) returns (values: array<Holder>)
    ensures fresh(values) && values.Length == |columns|
    ensures forall i | 0 <= i < |columns| :: values[i] == HolderFor(columns[i])
  {
    values := new Holder[|columns|](_ => Unknown(Null));
    for i := 0 to |columns|
      invariant forall j | 0 <= j < i :: values[j] == HolderFor(columns[j])
    {
      values[i] := HolderFor(columns[i]);
    }
  }

  // ---------------------------------------------------------------- the driver

  /** What the driver leaves in a holder for a database value; None is a conversion error. */
  function Load(h: Holder, raw: Cell): (r: Option<Holder>)
    ensures r.Some? ==> SameType(h, r.value)
  {
    match h
    case Unknown(_) => Some(Unknown(raw))
    case Bytes(_) => if raw.Text? then Some(Bytes(raw.s)) else if raw.Null? then Some(Bytes("")) else None
    case NullBool(_, _) => if raw.Bool? then Some(NullBool(raw.b, true)) else if raw.Null? then Some(NullBool(false,
        false)) else None
    case NullFloat(_, _) => if raw.Float? then Some(NullFloat(raw.r, true)) else if raw.Null? then Some(NullFloat(0.0,
        false)) else None
    case NullInt(_, _) => if raw.Int? then Some(NullInt(raw.i, true)) else if raw.Null? then Some(NullInt(0,
        false)) else None
    case NullString(_, _) => if raw.Text? then Some(NullString(raw.s, true)) else if raw.Null? then Some(NullString("",
        false)) else None
    case NullTime(_, _) => if raw.Time? then Some(NullTime(raw.t, true)) else if raw.Null? then Some(NullTime(0,
        false)) else None
  }

  function RawAt(raw: Row, c: Column): Cell {
    if c in raw then raw[c] else Null
  }

  /** The holders after the driver scanned one row into them. */
  ghost predicate Loaded(raw: Row, columns: seq<Column>, values: seq<Holder>) {
    && |values| == |columns|
    && forall i | 0 <= i < |columns| :: Load(HolderFor(columns[i]), RawAt(raw, columns[i])) == Some(values[i])
  }

  // ---------------------------------------------------------------- assignValues

  /** JSON: unmarshal also sees the document already in the field, because Go decodes into it. */
  datatype Codec = Codec(marshal: string -> string, unmarshal: (Option<string>, string) -> Option<string>)
  {
    /** Decoding the same text twice into one field changes nothing the second time. */
    ghost predicate Stable() {
      forall b: string, d: string :: unmarshal(None, b) == Some(d) ==> unmarshal(Some(d), b) == Some(d)
    }
    ghost predicate RoundTrips() {
      forall d: string :: marshal(d) != "" && unmarshal(None, marshal(d)) == Some(d)
    }
  }

  datatype Entity = Entity(fields: Row, selected: map<Column, Holder>)

  datatype AssignError = TooFewValues | UnexpectedType(column: Column) | BadJson(column: Column)

  datatype Assigned = Ok(entity: Entity) | Err(error: AssignError)

  function Put(e: Entity, c: Column, v: Cell): Entity {
    e.(fields := e.fields[c := v])
  }

  function DocOf(e: Entity, c: Column): Option<string> {
    if c in e.fields && e.fields[c].Json? then Some(e.fields[c].doc) else None
  }

  /** What a nullable holder says: its value if it is valid. */
  function Held(h: Holder): Option<Cell> {
    match h
    case Bytes(_) => None
    case NullBool(b, valid) => if valid then Some(Bool(b)) else None
    case NullFloat(r, valid) => if valid then Some(Float(r)) else None
    case NullInt(i, valid) => if valid then Some(Int(i)) else None
    case NullString(s, valid) => if valid then Some(Text(s)) else None
    case NullTime(t, valid) => if valid then Some(Time(t)) else None
    case Unknown(_) => None
  }

  function PutHeld(e: Entity, c: Column, h: Holder): Assigned {
    if Held(h).Some? then Ok(Put(e, c, Held(h).value)) else Ok(e)
  }

  /** One round of the loop of assignValues. */
  function Assign(k: Codec, e: Entity, c: Column, h: Holder): Assigned {
    match c
    case ID =>
      if !h.NullInt? then Err(UnexpectedType(c)) else Ok(Put(e, c, Int(h.i)))
    case CreatedAt | UpdatedAt | DeletedAt | LastUsedAt | ExpiresAt | RateLimitedAt | RateLimitResetAt | OverloadUntil
       | TempUnschedulableUntil | SessionWindowStart | SessionWindowEnd =>
      if h.NullTime? then PutHeld(e, c, h) else Err(UnexpectedType(c))
    case Name | Notes | Platform | Type | Status | ErrorMessage | TempUnschedulableReason | SessionWindowStatus
       | QuotaDimension =>
      if h.NullString? then PutHeld(e, c, h) else Err(UnexpectedType(c))
    case Credentials | Extra =>
      if !h.Bytes? then Err(UnexpectedType(c))
      else if h.bytes == "" then Ok(e)
      else
        var doc := k.unmarshal(DocOf(e, c), h.bytes);
        if doc.None? then Err(BadJson(c)) else Ok(Put(e, c, Json(doc.value)))
    case ProxyID | ProxyFallbackOriginID | Concurrency | LoadFactor | Priority | ParentAccountID =>
      if h.NullInt? then PutHeld(e, c, h) else Err(UnexpectedType(c))
    case RateMultiplier =>
      if h.NullFloat? then PutHeld(e, c, h) else Err(UnexpectedType(c))
    case AutoPauseOnExpired | Schedulable =>
      if h.NullBool? then PutHeld(e, c, h) else Err(UnexpectedType(c))
    case _ =>
      Ok(e.(selected := e.selected[c := h]))
  }

  /** The loop from column i on. */
  function AssignFrom(k: Codec, e: Entity, columns: seq<Column>, values: seq<Holder>, i: nat): Assigned
    requires i <= |columns| <= |values|
    decreases |columns| - i
  {
    if i == |columns| then Ok(e)
    else
      var r := Assign(k, e, columns[i], values[i]);
      if r.Err? then r else AssignFrom(k, r.entity, columns, values, i + 1)
  }

  function AssignAll(k: Codec, e: Entity, columns: seq<Column>, values: seq<Holder>): Assigned {
    if |values| < |columns| then Err(TooFewValues) else AssignFrom(k, e, columns, values, 0)
  }

  /** The part of an Account that a scan fills. */
  class Account {
    var entity: Entity

    constructor ()
      ensures entity == Entity(map[], map[])
    {
      entity := Entity(map[], map[]);
    }

    method AssignValues(k: Codec, columns: seq<Column>, values: seq<Holder>) returns (err: Option<AssignError>)
      modifies this
      ensures var r := AssignAll(k, old(entity), columns, values);
              (err.None? ==> r == Ok(entity)) && (err.Some? ==> r == Err(err.value))
    {
      if |values| < |columns| {
        return Some(TooFewValues);
      }
      for i := 0 to |columns|
        invariant AssignFrom(k, entity, columns, values, i) == AssignFrom(k, old(entity), columns, values, 0)
      {
        var r := Assign(k, entity, columns[i], values[i]);
        if r.Err? {
          return Some(r.error);
        }
        entity := r.entity;
      }
      return None;
    }
  }

  // ---------------------------------------------------------------- no type mismatch

  /** The two switch statements agree, column by column. */
  lemma SwitchesAgree(k: Codec, e: Entity, c: Column, h: Holder)
    requires SameType(HolderFor(c), h)
    ensures Assign(k, e, c, h).Err? ==> Assign(k, e, c, h).error == BadJson(c) && h.Bytes?
  {
  }

  lemma {:induction false} NoMismatchFrom(k: Codec, e: Entity, columns: seq<Column>, values: seq<Holder>, i: nat)
    requires i <= |columns| <= |values|
    requires forall j | 0 <= j < |columns| :: SameType(HolderFor(columns[j]), values[j])
    ensures AssignFrom(k, e, columns, values, i).Err? ==> AssignFrom(k, e, columns, values, i).error.BadJson?
    decreases |columns| - i
  {
    if i < |columns| {
      SwitchesAgree(k, e, columns[i], values[i]);
      var r := Assign(k, e, columns[i], values[i]);
      if r.Ok? {
        NoMismatchFrom(k, r.entity, columns, values, i + 1);
      }
    }
  }

  /** For every column list, unknown and repeated names included, and whatever the driver put into
      the holders, assignValues never meets a holder of the wrong type: only malformed JSON fails. */
  lemma NoMismatch(k: Codec, e: Entity, raw: Row, columns: seq<Column>, values: seq<Holder>)
    requires Loaded(raw, columns, values)
    ensures AssignAll(k, e, columns, values).Err? ==> AssignAll(k, e, columns, values).error.BadJson?
  {
    NoMismatchFrom(k, e, columns, values, 0);
  }

  // ---------------------------------------------------------------- a scan reads the row

  predicate Known(c: Column) {
    !HolderFor(c).Unknown?
  }

  /** The field value that a database value stands for; None leaves the field at its zero value. */
  function Decode(k: Codec, c: Column, raw: Cell): Option<Cell> {
    if raw.Null? then None
    else if HolderFor(c).Bytes? then
      if raw.Text? && raw.s != "" && k.unmarshal(None,
                                                 raw.s).Some? then Some(Json(k.unmarshal(None, raw.s).value)) else None
    else Some(raw)
  }

  /** The row has an ID, and its JSON columns hold JSON. */
  ghost predicate Sound(k: Codec, raw: Row) {
    && RawAt(raw, ID).Int?
    && forall c | c in raw && HolderFor(c).Bytes? && raw[c].Text? && raw[c].s != "" :: k.unmarshal(None, raw[c].s).Some?
  }

  /** The field part of e holds exactly what the first n columns stand for. */
  ghost predicate Reads(k: Codec, raw: Row, columns: seq<Column>, n: nat, e: Entity)
    requires n <= |columns|
  {
    && (forall c :: c in e.fields <==> Known(c) && c in columns[..n] && Decode(k, c, RawAt(raw, c)).Some?)
    && (forall c | c in e.fields :: Decode(k, c, RawAt(raw, c)) == Some(e.fields[c]))
  }

  lemma LoadHolds(g: Holder, raw: Cell, h: Holder)
    requires !g.Bytes? && Load(g, raw) == Some(h)
    ensures SameType(g, h)
    ensures !g.Unknown? ==> Held(h) == if raw.Null? then None else Some(raw)
  {
  }

  lemma AssignHeld(k: Codec, e: Entity, c: Column, h: Holder)
    requires !HolderFor(c).Bytes? && SameType(HolderFor(c), h) && (c == ID ==> Held(h).Some?)
    ensures Assign(k, e, c, h).Ok?
    ensures Assign(k, e, c, h).entity.fields == if Known(c) &&
              Held(h).Some? then e.fields[c := Held(h).value] else e.fields
  {
    if c != ID && Known(c) {
      assert Assign(k, e, c, h) == PutHeld(e, c, h);
    }
  }

  lemma AssignPlain(k: Codec, raw: Cell, e: Entity, c: Column, h: Holder)
    requires !HolderFor(c).Bytes? && (c == ID ==> raw.Int?)
    requires Load(HolderFor(c), raw) == Some(h)
    ensures var r := Assign(k, e, c, h);
            && r.Ok?
            && r.entity.fields == if Known(c) && !raw.Null? then e.fields[c := raw] else e.fields
  {
    LoadHolds(HolderFor(c), raw, h);
    AssignHeld(k, e, c, h);
  }

  lemma AssignJson(k: Codec, raw: Cell, e: Entity, c: Column, h: Holder)
    requires HolderFor(c).Bytes? && k.Stable()
    requires raw.Text? && raw.s != "" ==> k.unmarshal(None, raw.s).Some?
    requires Load(HolderFor(c), raw) == Some(h)
    requires c in e.fields ==> Decode(k, c, raw) == Some(e.fields[c])
    ensures var r, v := Assign(k, e, c, h), Decode(k, c, raw);
            && r.Ok?
            && r.entity.fields == if v.Some? then e.fields[c := v.value] else e.fields
  {
  }

  /** One round: the field of column c takes its decoded value, and nothing else changes. */
  lemma AssignReads(k: Codec, raw: Row, e: Entity, c: Column, h: Holder)
    requires k.Stable() && Sound(k, raw)
    requires Load(HolderFor(c), RawAt(raw, c)) == Some(h)
    requires c in e.fields ==> Decode(k, c, RawAt(raw, c)) == Some(e.fields[c])
    ensures var r, v := Assign(k, e, c, h), Decode(k, c, RawAt(raw, c));
            && r.Ok?
            && r.entity.fields == if Known(c) && v.Some? then e.fields[c := v.value] else e.fields
  {
    if HolderFor(c).Bytes? {
      AssignJson(k, RawAt(raw, c), e, c, h);
    } else {
      AssignPlain(k, RawAt(raw, c), e, c, h);
    }
  }

  lemma ReadsNext(k: Codec, raw: Row, e: Entity, columns: seq<Column>, i: nat, h: Holder)
    requires k.Stable() && Sound(k, raw) && i < |columns| && Reads(k, raw, columns, i, e)
    requires Load(HolderFor(columns[i]), RawAt(raw, columns[i])) == Some(h)
    ensures Assign(k, e, columns[i], h).Ok? && Reads(k, raw, columns, i + 1, Assign(k, e, columns[i], h).entity)
  {
    AssignReads(k, raw, e, columns[i], h);
    assert columns[..i + 1] == columns[..i] + [columns[i]];
  }

  lemma {:induction false} AssignFromReads(k: Codec, raw: Row, e: Entity, columns: seq<Column>, values: seq<Holder>,
                                           i: nat)
    requires k.Stable() && Sound(k, raw) && Loaded(raw, columns, values)
    requires i <= |columns| && Reads(k, raw, columns, i, e)
    ensures var r := AssignFrom(k, e, columns, values, i);
            r.Ok? && Reads(k, raw, columns, |columns|, r.entity)
    decreases |columns| - i
  {
    if i < |columns| {
      ReadsNext(k, raw, e, columns, i, values[i]);
      AssignFromReads(k, raw, Assign(k, e, columns[i], values[i]).entity, columns, values, i + 1);
    }
  }

  /** The row with every column decoded. */
  ghost function Decoded(k: Codec, raw: Row): (row: Row)
    ensures forall c :: c in row <==> c in raw && Known(c) && Decode(k, c, raw[c]).Some?
    ensures forall c | c in row :: Some(row[c]) == Decode(k, c, raw[c])
  {
    map c | c in raw && Known(c) && Decode(k, c, raw[c]).Some? :: Decode(k, c, raw[c]).value
  }

  /** Scanning any list of columns into a new account succeeds and yields the decoded values of
      exactly those columns; NULL, and only NULL (or empty bytes), leaves a field unset. */
  lemma ScanReadsRow(k: Codec, raw: Row, columns: seq<Column>, values: seq<Holder>)
    requires k.Stable() && Sound(k, raw) && Loaded(raw, columns, values)
    ensures var r := AssignAll(k, Entity(map[], map[]), columns, values);
            r.Ok? && r.entity.fields == Scan(Decoded(k, raw), columns)
  {
    AssignFromReads(k, raw, Entity(map[], map[]), columns, values, 0);
    var r := AssignFrom(k, Entity(map[], map[]), columns, values, 0);
    assert columns[..|columns|] == columns;
    var row := Decoded(k, raw);
    assert forall c | c in r.entity.fields :: c in row && r.entity.fields[c] == row[c];
  }

  /** A JSON column of the row whose text is no JSON. */
  ghost predicate Malformed(k: Codec, raw: Row, c: Column) {
    && (c == Credentials || c == Extra)
    && RawAt(raw, c).Text? && RawAt(raw, c).s != "" && k.unmarshal(None, RawAt(raw, c).s).None?
  }

  /** The row without its malformed columns. */
  ghost function Repaired(k: Codec, raw: Row): (r: Row)
    ensures forall c :: c in r <==> c in raw && !Malformed(k, raw, c)
    ensures forall c | c in r :: r[c] == raw[c]
  {
    map c | c in raw && !Malformed(k, raw, c) :: raw[c]
  }

  lemma RepairedSound(k: Codec, raw: Row)
    requires RawAt(raw, ID).Int?
    ensures Sound(k, Repaired(k, raw))
  {
    var r := Repaired(k, raw);
    forall c | c in r && HolderFor(c).Bytes? && r[c].Text? && r[c].s != "" ensures k.unmarshal(None, r[c].s).Some? {
      assert c == Credentials || c == Extra;
    }
  }

  lemma JsonFails(k: Codec, raw: Row, e: Entity, c: Column, h: Holder)
    requires Malformed(k, raw, c) && Load(HolderFor(c), RawAt(raw, c)) == Some(h) && c !in e.fields
    ensures Assign(k, e, c, h) == Err(BadJson(c))
  {
  }

  lemma {:induction false} FailsAt(k: Codec, raw: Row, e: Entity, columns: seq<Column>, values: seq<Holder>, i: nat,
                                   j: nat)
    requires k.Stable() && RawAt(raw, ID).Int? && Loaded(raw, columns, values)
    requires i <= j < |columns| && Reads(k, Repaired(k, raw), columns, i, e)
    requires Malformed(k, raw, columns[j]) && forall n | 0 <= n < j :: !Malformed(k, raw, columns[n])
    ensures AssignFrom(k, e, columns, values, i) == Err(BadJson(columns[j]))
    decreases j - i
  {
    if i == j {
      JsonFails(k, raw, e, columns[i], values[i]);
    } else {
      RepairedSound(k, raw);
      assert RawAt(Repaired(k, raw), columns[i]) == RawAt(raw, columns[i]);
      ReadsNext(k, Repaired(k, raw), e, columns, i, values[i]);
      FailsAt(k, raw, Assign(k, e, columns[i], values[i]).entity, columns, values, i + 1, j);
    }
  }

  /** A scan fails exactly if a malformed JSON column is listed, and names the first one. */
  lemma ScanFailsAt(k: Codec, raw: Row, columns: seq<Column>, values: seq<Holder>, j: nat)
    requires k.Stable() && RawAt(raw, ID).Int? && Loaded(raw, columns, values) && j <= |columns|
    requires forall n | 0 <= n < j :: !Malformed(k, raw, columns[n])
    requires j < |columns| ==> Malformed(k, raw, columns[j])
    ensures var r := AssignAll(k, Entity(map[], map[]), columns, values);
            if j < |columns| then r == Err(BadJson(columns[j])) else r.Ok?
  {
    var start := Entity(map[], map[]);
    if j < |columns| {
      FailsAt(k, raw, start, columns, values, 0, j);
    } else {
      RepairedSound(k, raw);
      assert forall n | 0 <= n < |columns| :: RawAt(Repaired(k, raw), columns[n]) == RawAt(raw, columns[n]);
      ScanReadsRow(k, Repaired(k, raw), columns, values);
    }
  }

  /** Columns that are no fields of an account are kept as they came, under their names. */
  ghost predicate Keeps(raw: Row, columns: seq<Column>, n: nat, e: Entity)
    requires n <= |columns|
  {
    && (forall c :: c in e.selected <==> c in columns[..n] && Foreign(c))
    && (forall c | c in e.selected :: e.selected[c] == Unknown(RawAt(raw, c)))
  }

  /** A column that is no field of an account. */
  predicate Foreign(c: Column) {
    c == AccountID || c == GroupID || c.Other?
  }

  lemma AssignSelects(k: Codec, e: Entity, c: Column, h: Holder)
    requires Assign(k, e, c, h).Ok?
    ensures Assign(k, e, c, h).entity.selected == if Foreign(c) then e.selected[c := h] else e.selected
  {
  }

  lemma ForeignHolder(raw: Cell, c: Column, h: Holder)
    requires Foreign(c) && Load(HolderFor(c), raw) == Some(h)
    ensures h == Unknown(raw)
  {
  }

  lemma AssignKeeps(k: Codec, raw: Row, e: Entity, columns: seq<Column>, i: nat, h: Holder)
    requires i < |columns| && Keeps(raw, columns, i, e)
    requires Load(HolderFor(columns[i]), RawAt(raw, columns[i])) == Some(h)
    ensures Assign(k, e, columns[i], h).Ok? ==> Keeps(raw, columns, i + 1, Assign(k, e, columns[i], h).entity)
  {
    assert columns[..i + 1] == columns[..i] + [columns[i]];
    if Assign(k, e, columns[i], h).Ok? {
      AssignSelects(k, e, columns[i], h);
      if Foreign(columns[i]) {
        ForeignHolder(RawAt(raw, columns[i]), columns[i], h);
      }
    }
  }

  lemma {:induction false} AssignFromKeeps(k: Codec, raw: Row, e: Entity, columns: seq<Column>, values: seq<Holder>,
                                           i: nat)
    requires Loaded(raw, columns, values) && i <= |columns| && Keeps(raw, columns, i, e)
    requires AssignFrom(k, e, columns, values, i).Ok?
    ensures Keeps(raw, columns, |columns|, AssignFrom(k, e, columns, values, i).entity)
    decreases |columns| - i
  {
    if i < |columns| {
      AssignKeeps(k, raw, e, columns, i, values[i]);
      AssignFromKeeps(k, raw, Assign(k, e, columns[i], values[i]).entity, columns, values, i + 1);
    }
  }

  lemma SelectedKept(k: Codec, raw: Row, columns: seq<Column>, values: seq<Holder>, c: Column)
    requires Loaded(raw, columns, values) && AssignAll(k, Entity(map[], map[]), columns, values).Ok?
    ensures var kept := AssignAll(k, Entity(map[], map[]), columns, values).entity.selected;
            && (c in kept <==> c in columns && (c == AccountID || c == GroupID || c.Other?))
            && (c in kept ==> kept[c] == Unknown(if c in raw then raw[c] else Null))
  {
    AssignFromKeeps(k, raw, Entity(map[], map[]), columns, values, 0);
    assert columns[..|columns|] == columns;
  }

  // ---------------------------------------------------------------- createSpec

  /** The mutation of a create builder: its fields, and the IDs of its two many-to-one edges. */
  datatype Mutation = Mutation(fields: Row, proxyIds: seq<int>, parentIds: seq<int>)

  /** The columns createSpec copies from the mutation. */
  predicate Copied(c: Column) {
    match c
    case CreatedAt | UpdatedAt | DeletedAt | Name | Notes | Platform | Type | Credentials | Extra
       | ProxyFallbackOriginID | Concurrency | LoadFactor | Priority | RateMultiplier | Status | ErrorMessage
       | LastUsedAt | ExpiresAt | AutoPauseOnExpired | Schedulable | RateLimitedAt | RateLimitResetAt
       | OverloadUntil | TempUnschedulableUntil | TempUnschedulableReason | SessionWindowStart
       | SessionWindowEnd | SessionWindowStatus | QuotaDimension => true
    case _ => false
  }

  /** The insert: plain fields, and the target nodes of the M2O edges that own a column. */
  datatype CreateSpec = CreateSpec(fields: Row, proxy: seq<int>, parent: seq<int>)

  function SpecOf(m: Mutation): CreateSpec {
    CreateSpec(map c | c in m.fields && Copied(c) :: m.fields[c], m.proxyIds, m.parentIds)
  }

  function SetKey(r: Row, c: Column, ids: seq<int>): Row {
    if |ids| > 0 then r[c := Int(ids[0])] else r
  }

  /** The node createSpec returns. */
  function NodeOf(m: Mutation): Row {
    SetKey(SetKey(map c | c in m.fields && Copied(c) :: m.fields[c], ProxyID, m.proxyIds), ParentAccountID, m.parentIds)
  }

  /** The Go types of the setters: each field value has the type of its column, and is not NULL. */
  predicate HasType(c: Column, v: Cell) {
    match HolderFor(c)
    case Bytes(_) => v.Json?
    case NullBool(_, _) => v.Bool?
    case NullFloat(_, _) => v.Float?
    case NullInt(_, _) => v.Int?
    case NullString(_, _) => v.Text?
    case NullTime(_, _) => v.Time?
    case Unknown(_) => false
  }

  ghost predicate Typed(m: Mutation) {
    forall c | c in m.fields :: HasType(c, m.fields[c])
  }

  function Encode(k: Codec, v: Cell): Cell {
    if v.Json? then Text(k.marshal(v.doc)) else v
  }

  /** The stored row: every field encoded, an M2O column set to the first target node, the
      generated ID, and NULL for the rest. */
  function Stored(k: Codec, spec: CreateSpec, id: int): Row {
    SetKey(SetKey(map c | c in spec.fields :: Encode(k, spec.fields[c]), ProxyID, spec.proxy), ParentAccountID,
           spec.parent)[ID := Int(id)]
  }

  lemma CopiedIsKnown(c: Column)
    ensures Copied(c) ==> Known(c) && c != ID && c != ProxyID && c != ParentAccountID
  {
  }

  lemma DecodeEncode(k: Codec, c: Column, v: Cell)
    requires k.RoundTrips() && HasType(c, v)
    ensures Decode(k, c, Encode(k, v)) == Some(v)
    ensures Load(HolderFor(c), Encode(k, v)).Some?
  {
  }

  /** Column by column, the stored row decodes to the node with its generated ID. */
  lemma StoredAt(k: Codec, m: Mutation, id: int, c: Column)
    requires k.RoundTrips() && Typed(m)
    ensures var raw, node := Stored(k, SpecOf(m), id), NodeOf(m)[ID := Int(id)];
            && (c in node <==> c in raw)
            && (c in node ==> Known(c) && node[c] != Null && Decode(k, c, raw[c]) == Some(node[c]))
            && Load(HolderFor(c), RawAt(raw, c)).Some?
  {
    CopiedIsKnown(c);
    if c in m.fields {
      DecodeEncode(k, c, m.fields[c]);
    }
  }

  /** Whatever createSpec wrote, the driver can load into the holders of any column list. */
  lemma StoredLoads(k: Codec, m: Mutation, id: int, columns: seq<Column>) returns (values: seq<Holder>)
    requires k.RoundTrips() && Typed(m)
    ensures Loaded(Stored(k, SpecOf(m), id), columns, values)
  {
    var raw := Stored(k, SpecOf(m), id);
    forall c ensures Load(HolderFor(c), RawAt(raw, c)).Some? {
      StoredAt(k, m, id, c);
    }
    values := seq(|columns|, i requires 0 <= i < |columns| => Load(HolderFor(columns[i]),
                                                                   RawAt(raw, columns[i])).value);
  }

  lemma StoredSound(k: Codec, m: Mutation, id: int)
    requires k.RoundTrips() && Typed(m)
    ensures Sound(k, Stored(k, SpecOf(m), id))
  {
    var raw := Stored(k, SpecOf(m), id);
    forall c | c in raw && HolderFor(c).Bytes? && raw[c].Text? && raw[c].s != ""
      ensures k.unmarshal(None, raw[c].s).Some?
    {
      StoredAt(k, m, id, c);
    }
  }

  /** Reading a created row back through any column list gives the selected fields of the node that
      createSpec returned: NULL for exactly the fields the node has unset. */
  lemma CreateThenScan(k: Codec, m: Mutation, id: int, columns: seq<Column>, values: seq<Holder>)
    requires k.RoundTrips() && k.Stable() && Typed(m)
    requires Loaded(Stored(k, SpecOf(m), id), columns, values)
    ensures var r := AssignAll(k, Entity(map[], map[]), columns, values);
            r.Ok? && r.entity.fields == Scan(NodeOf(m)[ID := Int(id)], columns)
  {
    var raw, node := Stored(k, SpecOf(m), id), NodeOf(m)[ID := Int(id)];
    StoredSound(k, m, id);
    ScanReadsRow(k, raw, columns, values);
    forall c ensures c in Decoded(k, raw) <==> c in node
             ensures c in node ==> Decoded(k, raw)[c] == node[c] && node[c] != Null {
      StoredAt(k, m, id, c);
    }
    assert Decoded(k, raw) == node;
  }

  /** With all the columns, in any order and with repetitions, the whole node comes back. */
  lemma CreateThenReadAll(k: Codec, m: Mutation, id: int, columns: seq<Column>, values: seq<Holder>)
    requires k.RoundTrips() && k.Stable() && Typed(m)
    requires Loaded(Stored(k, SpecOf(m), id), columns, values)
    requires forall c | Known(c) :: c in columns
    ensures AssignAll(k, Entity(map[], map[]), columns, values).Ok?
    ensures AssignAll(k, Entity(map[], map[]), columns, values).entity.fields == NodeOf(m)[ID := Int(id)]
  {
    CreateThenScan(k, m, id, columns, values);
    var node := NodeOf(m)[ID := Int(id)];
    forall c ensures c in node ==> Known(c) && node[c] != Null {
      StoredAt(k, m, id, c);
    }
    assert Scan(node, columns) == node;
  }

  // ---------------------------------------------------------------- what the caller set

  /** The columns of the accounts table that a caller sets as fields. */
  predicate FieldColumn(c: Column) {
    c != ID && c != ProxyID && c != ParentAccountID && c != AccountID && c != GroupID && !c.Other?
  }

  lemma FieldIsCopied(c: Column)
    ensures Copied(c) <==> FieldColumn(c)
  {
  }

  lemma KeyIsSet(r: Row, c: Column, ids: seq<int>, b: Column)
    ensures var s := SetKey(r, c, ids);
            && (b == c && ids != [] ==> b in s && s[b] == Int(ids[0]))
            && (b != c || ids == [] ==> (b in s <==> b in r) && (b in r ==> s[b] == r[b]))
  {
  }

  /** The node that createSpec returns has exactly the fields that were set, the two foreign keys if
      their edges were, and nothing else. */
  lemma NodeIsMutation(m: Mutation, c: Column)
    ensures FieldColumn(c) ==> (c in NodeOf(m) <==> c in m.fields) && (c in m.fields ==> NodeOf(m)[c] == m.fields[c])
    ensures c == ProxyID ==>
              (c in NodeOf(m) <==> m.proxyIds != []) && (m.proxyIds != [] ==> NodeOf(m)[c] == Int(m.proxyIds[0]))
    ensures c == ParentAccountID ==>
              (c in NodeOf(m) <==> m.parentIds != []) && (m.parentIds != [] ==> NodeOf(m)[c] == Int(m.parentIds[0]))
    ensures !FieldColumn(c) && c != ProxyID && c != ParentAccountID ==> c !in NodeOf(m)
  {
    var copied: Row := map b | b in m.fields && Copied(b) :: m.fields[b];
    FieldIsCopied(c);
    KeyIsSet(copied, ProxyID, m.proxyIds, c);
    KeyIsSet(SetKey(copied, ProxyID, m.proxyIds), ParentAccountID, m.parentIds, c);
  }

  /** So does the row that is stored, documents as JSON texts ... */
  lemma StoredIsMutation(k: Codec, m: Mutation, id: int, c: Column)
    requires FieldColumn(c)
    ensures var raw := Stored(k, SpecOf(m), id);
            && (c in raw <==> c in m.fields)
            && (c in m.fields ==> raw[c] == match m.fields[c] case Json(doc) => Text(k.marshal(doc)) case v => v)
  {
    var encoded := Encoded(k, m);
    FieldIsCopied(c);
    KeyIsSet(encoded, ProxyID, m.proxyIds, c);
    KeyIsSet(SetKey(encoded, ProxyID, m.proxyIds), ParentAccountID, m.parentIds, c);
  }

  /** ... with the foreign keys and the generated ID. */
  lemma StoredKeys(k: Codec, m: Mutation, id: int, c: Column)
    requires !FieldColumn(c)
    ensures var raw := Stored(k, SpecOf(m), id);
            && (c == ID ==> c in raw && raw[c] == Int(id))
            && (c == ProxyID ==> (c in raw <==> m.proxyIds != []) && (c in raw ==> raw[c] == Int(m.proxyIds[0])))
            && (c == ParentAccountID ==>
                 (c in raw <==> m.parentIds != []) && (c in raw ==> raw[c] == Int(m.parentIds[0])))
            && (c == AccountID || c == GroupID || c.Other? ==> c !in raw)
  {
    var encoded := Encoded(k, m);
    FieldIsCopied(c);
    KeyIsSet(encoded, ProxyID, m.proxyIds, c);
    KeyIsSet(SetKey(encoded, ProxyID, m.proxyIds), ParentAccountID, m.parentIds, c);
  }

  /** The encoded fields, without keys. */
  function Encoded(k: Codec, m: Mutation): (r: Row)
    ensures forall c :: c in r <==> c in m.fields && Copied(c)
    ensures forall c | c in r :: r[c] == Encode(k, m.fields[c])
  {
    map c | c in SpecOf(m).fields :: Encode(k, SpecOf(m).fields[c])
  }

  /** The types of the columns, as the values a database may return for them. */
  lemma LoadsIff(c: Column, raw: Cell)
    ensures Load(HolderFor(c), raw).Some? <==>
              || raw.Null?
              || match c
                 case Credentials | Extra | Name | Notes | Platform | Type | Status | ErrorMessage
                    | TempUnschedulableReason | SessionWindowStatus | QuotaDimension => raw.Text?
                 case AutoPauseOnExpired | Schedulable => raw.Bool?
                 case RateMultiplier => raw.Float?
                 case ID | ProxyID | ProxyFallbackOriginID | Concurrency | LoadFactor | Priority | ParentAccountID =>
                   raw.Int?
                 case CreatedAt | UpdatedAt | DeletedAt | LastUsedAt | ExpiresAt | RateLimitedAt | RateLimitResetAt
                    | OverloadUntil | TempUnschedulableUntil | SessionWindowStart | SessionWindowEnd => raw.Time?
                 case AccountID | GroupID | Other(_) => true
  {
  }

  /** Reading the created row back through all columns of the table gives every field just as the
      caller set it, the foreign keys of the edges, and the generated ID. */
  lemma CreateThenReadMutation(k: Codec, m: Mutation, id: int, columns: seq<Column>, values: seq<Holder>, c: Column)
    requires k.RoundTrips() && k.Stable() && Typed(m)
    requires Loaded(Stored(k, SpecOf(m), id), columns, values)
    requires forall b | b == ID || b == ProxyID || b == ParentAccountID || FieldColumn(b) :: b in columns
    ensures AssignAll(k, Entity(map[], map[]), columns, values).Ok?
    ensures var fields := AssignAll(k, Entity(map[], map[]), columns, values).entity.fields;
            && (FieldColumn(c) ==> (c in fields <==> c in m.fields) && (c in m.fields ==> fields[c] == m.fields[c]))
            && (c == ID ==> c in fields && fields[c] == Int(id))
            && (c == ProxyID ==>
                 (c in fields <==> m.proxyIds != []) && (c in fields ==> fields[c] == Int(m.proxyIds[0])))
            && (c == ParentAccountID ==>
                  (c in fields <==> m.parentIds != []) && (c in fields ==> fields[c] == Int(m.parentIds[0])))
            && (c == AccountID || c == GroupID || c.Other? ==> c !in fields)
  {
    forall b | Known(b) ensures b in columns {
      KnownIsColumn(b);
    }
    CreateThenReadAll(k, m, id, columns, values);
    NodeIsMutation(m, c);
  }

  lemma KnownIsColumn(c: Column)
    ensures Known(c) <==> c == ID || c == ProxyID || c == ParentAccountID || FieldColumn(c)
  {
  }
}
