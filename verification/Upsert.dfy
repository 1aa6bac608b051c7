/** The upsert chains: OnConflictColumns and what can be called after it, for one builder and for a
    bulk, and what they do to the row that is already there. */
module Upsert {
  import opened Schema

  // ---------------------------------------------------------------- what the database does

  /** The right-hand side of one assignment of DO UPDATE SET. */
  datatype Source =
    | Value(v: Cell)      // Set
    | Excluded            // SetExcluded: the value proposed for insertion
    | Itself              // SetIgnore: the value already in the row
    | Cleared             // SetNull
    | Plus(amount: Cell)  // Add

  /** sql.UpdateSet: the last assignment to a column wins. */
  type UpdateSet = map<Column, Source>

  datatype Edit = Edit(column: Column, source: Source)

  datatype ConflictOption =
    | ConflictColumns(columns: seq<Column>)
    | ResolveWithNewValues
    | ResolveWithIgnore
    | DoNothingOption
    | ResolveWith(edits: seq<Edit>)
    | KeepCreatedAt       // the closure UpdateNewValues adds; it looks at the mutations when it runs

  function CellAt(r: Row, c: Column): Cell {
    if c in r then r[c] else Null
  }

  /** NULL counts as zero when something is added to it. */
  function Sum(a: Cell, b: Cell): Cell {
    match b
    case Int(y) => Int((if a.Int? then a.i else 0) + y)
    case Float(y) => Float((if a.Float? then a.r else 0.0) + y)
    case _ => b
  }

  function NewCell(src: Source, existing: Row, proposed: Row, c: Column): Cell {
    match src
    case Value(v) => v
    case Excluded => CellAt(proposed, c)
    case Itself => CellAt(existing, c)
    case Cleared => Null
    case Plus(v) => Sum(CellAt(existing, c), v)
  }

  /** The cell of column c after the row `existing` met the row `proposed`. */
  function After(nothing: bool, set_: UpdateSet, existing: Row, proposed: Row, c: Column): Cell {
    if nothing || c !in set_ then CellAt(existing, c) else NewCell(set_[c], existing, proposed, c)
  }

  // ---------------------------------------------------------------- running the options

  /** The columns of the INSERT: those set by some builder. */
  ghost predicate Inserted(ms: seq<Row>, c: Column) {
    exists i | 0 <= i < |ms| :: c in ms[i]
  }

  function InsertColumns(ms: seq<Row>): (cs: set<Column>)
    ensures forall c :: c in cs <==> Inserted(ms, c)
  {
    if ms == [] then {}
    else
      var n := |ms| - 1;
      assert forall i | 0 <= i < n :: ms[..n][i] == ms[i];
      assert forall c :: Inserted(ms, c) <==> Inserted(ms[..n], c) || c in ms[n];
      InsertColumns(ms[..n]) + ms[n].Keys
  }

  function ApplyEdits(edits: seq<Edit>, n: nat, s: UpdateSet): UpdateSet
    requires n <= |edits|
  {
    if n == 0 then s else ApplyEdits(edits, n - 1, s)[edits[n - 1].column := edits[n - 1].source]
  }

  function AssignAll(s: UpdateSet, cs: set<Column>, src: Source): UpdateSet {
    s + (map c | c in cs :: src)
  }

  function Run(o: ConflictOption, ms: seq<Row>, s: UpdateSet): UpdateSet {
    match o
    case ConflictColumns(_) => s
    case ResolveWithNewValues => AssignAll(s, InsertColumns(ms), Excluded)
    case ResolveWithIgnore => AssignAll(s, InsertColumns(ms), Itself)
    case DoNothingOption => s
    case ResolveWith(edits) => ApplyEdits(edits, |edits|, s)
    case KeepCreatedAt => if CreatedAt in InsertColumns(ms) then s[CreatedAt := Itself] else s
  }

  /** The update set after the first n options. */
  function RunAll(os: seq<ConflictOption>, n: nat, ms: seq<Row>): UpdateSet
    requires n <= |os|
  {
    if n == 0 then map[] else Run(os[n - 1], ms, RunAll(os, n - 1, ms))
  }

  /** The row after a conflict, cell by cell. */
  function Resolved(os: seq<ConflictOption>, ms: seq<Row>, existing: Row, proposed: Row, c: Column): Cell {
    After(DoNothingOption in os, RunAll(os, |os|, ms), existing, proposed, c)
  }

  // ---------------------------------------------------------------- the builder methods

  /** The columns with Set and Update methods. */
  predicate HasSetter(c: Column) {
    match c
    case ID | CreatedAt | AccountID | GroupID | Other(_) => false
    case _ => true
  }

  /** The columns with a Clear method. */
  predicate HasClear(c: Column) {
    match c
    case DeletedAt | Notes | ProxyID | ProxyFallbackOriginID | LoadFactor | ErrorMessage | LastUsedAt | ExpiresAt
       | RateLimitedAt | RateLimitResetAt | OverloadUntil | TempUnschedulableUntil | TempUnschedulableReason
       | SessionWindowStart | SessionWindowEnd | SessionWindowStatus | ParentAccountID => true
    case _ => false
  }

  /** The columns with an Add method. */
  predicate HasAdd(c: Column) {
    match c
    case ProxyFallbackOriginID | Concurrency | LoadFactor | Priority | RateMultiplier => true
    case _ => false
  }

  /** The edits the named methods of AccountUpsert can make. */
  predicate NamedEdit(e: Edit) {
    match e.source
    case Value(_) => HasSetter(e.column)
    case Excluded => HasSetter(e.column)
    case Itself => false
    case Cleared => HasClear(e.column)
    case Plus(_) => HasAdd(e.column)
  }

  /** A call on AccountUpsertOne or AccountUpsertBulk.  A named setter is an Update with one edit. */
  datatype Call = UpdateNewValues | Ignore | DoNothing | Update(edits: seq<Edit>)
  {
    predicate Named() {
      Update? ==> forall i | 0 <= i < |edits| :: NamedEdit(edits[i])
    }

    function Options(): seq<ConflictOption> {
      match this
      case UpdateNewValues => [ResolveWithNewValues, KeepCreatedAt]
      case Ignore => [ResolveWithIgnore]
      case DoNothing => [DoNothingOption]
      case Update(edits) => [ResolveWith(edits)]
    }
  }

  function OptionsOf(calls: seq<Call>, n: nat): seq<ConflictOption>
    requires n <= |calls|
  {
    if n == 0 then [] else OptionsOf(calls, n - 1) + calls[n - 1].Options()
  }

  /** The conflict field of AccountCreate or AccountCreateBulk, appended to in place. */
  class UpsertBuilder {
    var conflict: seq<ConflictOption>

    constructor ()
      ensures conflict == []
    {
      conflict := [];
    }

    method OnConflictColumns(columns: seq<Column>)
      modifies this
      ensures conflict == old(conflict) + [ConflictColumns(columns)]
    {
      conflict := conflict + [ConflictColumns(columns)];
    }

    method Apply(call: Call)
      modifies this
      ensures conflict == old(conflict) + call.Options()
    {
      match call
      case UpdateNewValues =>
        conflict := conflict + [ResolveWithNewValues];
        conflict := conflict + [KeepCreatedAt];
      case Ignore =>
        conflict := conflict + [ResolveWithIgnore];
      case DoNothing =>
        conflict := conflict + [DoNothingOption];
      case Update(edits) =>
        conflict := conflict + [ResolveWith(edits)];
    }

    /** A whole chain. */
    method Chain(columns: seq<Column>, calls: seq<Call>)
      modifies this
      ensures conflict == old(conflict) + [ConflictColumns(columns)] + OptionsOf(calls, |calls|)
    {
      OnConflictColumns(columns);
      for i := 0 to |calls|
        invariant conflict == old(conflict) + [ConflictColumns(columns)] + OptionsOf(calls, i)
      {
        Apply(calls[i]);
      }
    }
  }

  /** The options of a chain started with OnConflictColumns on a builder without options. */
  function ChainOptions(columns: seq<Column>, calls: seq<Call>): seq<ConflictOption> {
    [ConflictColumns(columns)] + OptionsOf(calls, |calls|)
  }

  // ---------------------------------------------------------------- created_at is kept

  ghost predicate KeepsCreatedAt(s: UpdateSet) {
    CreatedAt in s ==> s[CreatedAt] == Itself
  }

  lemma {:induction false} EditsKeep(edits: seq<Edit>, n: nat, s: UpdateSet)
    requires n <= |edits| && forall i | 0 <= i < |edits| :: NamedEdit(edits[i])
    requires KeepsCreatedAt(s)
    ensures KeepsCreatedAt(ApplyEdits(edits, n, s))
  {
    if n > 0 {
      EditsKeep(edits, n - 1, s);
      assert NamedEdit(edits[n - 1]);
    }
  }

  /** Running more options after some. */
  lemma {:induction false} RunAppend(os: seq<ConflictOption>, more: seq<ConflictOption>, n: nat, ms: seq<Row>)
    requires n <= |os|
    ensures RunAll(os + more, n, ms) == RunAll(os, n, ms)
  {
    if n > 0 {
      RunAppend(os, more, n - 1, ms);
      assert (os + more)[n - 1] == os[n - 1];
    }
  }

  lemma RunCall(os: seq<ConflictOption>, call: Call, ms: seq<Row>)
    ensures var t := RunAll(os + call.Options(), |os + call.Options()|, ms);
            t == match call
                 case UpdateNewValues => Run(KeepCreatedAt, ms, Run(ResolveWithNewValues, ms, RunAll(os, |os|, ms)))
                 case Ignore => Run(ResolveWithIgnore, ms, RunAll(os, |os|, ms))
                 case DoNothing => RunAll(os, |os|, ms)
                 case Update(edits) => Run(ResolveWith(edits), ms, RunAll(os, |os|, ms))
  {
    RunAppend(os, call.Options(), |os|, ms);
    var all := os + call.Options();
    assert all[|os|] == call.Options()[0];
    if call.UpdateNewValues? {
      assert all[|os| + 1] == KeepCreatedAt;
      assert RunAll(all, |os| + 1, ms) == Run(ResolveWithNewValues, ms, RunAll(os, |os|, ms));
    }
  }

  lemma CallKeeps(call: Call, ms: seq<Row>, s: UpdateSet, os: seq<ConflictOption>)
    requires call.Named() && s == RunAll(os, |os|, ms) && KeepsCreatedAt(s)
    ensures KeepsCreatedAt(RunAll(os + call.Options(), |os + call.Options()|, ms))
  {
    RunCall(os, call, ms);
    if call.Update? {
      EditsKeep(call.edits, |call.edits|, s);
    }
  }

  lemma {:induction false} ChainKeeps(columns: seq<Column>, calls: seq<Call>, n: nat, ms: seq<Row>)
    requires n <= |calls| && forall i | 0 <= i < |calls| :: calls[i].Named()
    ensures var os := [ConflictColumns(columns)] + OptionsOf(calls, n);
            KeepsCreatedAt(RunAll(os, |os|, ms))
  {
    var start := [ConflictColumns(columns)];
    if n == 0 {
      assert start + OptionsOf(calls, 0) == start;
      assert RunAll(start, 0, ms) == map[];
    } else {
      var os := start + OptionsOf(calls, n - 1);
      ChainKeeps(columns, calls, n - 1, ms);
      CallKeeps(calls[n - 1], ms, RunAll(os, |os|, ms), os);
      Associate(start, OptionsOf(calls, n - 1), calls[n - 1].Options());
    }
  }

  lemma Associate(a: seq<ConflictOption>, b: seq<ConflictOption>, c: seq<ConflictOption>)
    ensures (a + b) + c == a + (b + c)
  {
  }

  /** For every chain of named calls after OnConflictColumns, for one builder or many, a row that
      was already there keeps its created_at. */
  lemma CreatedAtKept(columns: seq<Column>, calls: seq<Call>, ms: seq<Row>, existing: Row, proposed: Row)
    requires forall i | 0 <= i < |calls| :: calls[i].Named()
    ensures Resolved(ChainOptions(columns, calls), ms, existing, proposed, CreatedAt) == CellAt(existing, CreatedAt)
  {
    ChainKeeps(columns, calls, |calls|, ms);
  }

  /** The option its comment calls equivalent to UpdateNewValues is not: alone it overwrites
      created_at whenever some builder sets it. */
  lemma NewValuesOverwrite(columns: seq<Column>, ms: seq<Row>, existing: Row, proposed: Row)
    ensures var os := [ConflictColumns(columns), ResolveWithNewValues];
            Resolved(os, ms, existing, proposed, CreatedAt) ==
              if Inserted(ms, CreatedAt) then CellAt(proposed, CreatedAt) else CellAt(existing, CreatedAt)
  {
    var os := [ConflictColumns(columns), ResolveWithNewValues];
    assert RunAll(os, 0, ms) == map[];
    assert RunAll(os, 1, ms) == map[];
    assert RunAll(os, 2, ms) == AssignAll(map[], InsertColumns(ms), Excluded);
  }

  // ---------------------------------------------------------------- what else the calls mean

  lemma {:induction false} NothingInOptions(calls: seq<Call>, n: nat)
    requires n <= |calls|
    ensures DoNothingOption in OptionsOf(calls, n) <==> exists i | 0 <= i < n :: calls[i].DoNothing?
  {
    if n > 0 {
      NothingInOptions(calls, n - 1);
      var last := calls[n - 1].Options();
      assert DoNothingOption in last <==> calls[n - 1].DoNothing? by {
        match calls[n - 1]
        case DoNothing => assert last[0] == DoNothingOption;
        case _ =>
      }
    }
  }

  /** DoNothing anywhere in a chain, before or after other calls, leaves the whole row alone. */
  lemma DoNothingWins(columns: seq<Column>, calls: seq<Call>, ms: seq<Row>, existing: Row, proposed: Row, i: nat,
                      c: Column)
    requires i < |calls| && calls[i].DoNothing?
    ensures Resolved(ChainOptions(columns, calls), ms, existing, proposed, c) == CellAt(existing, c)
  {
    NothingInOptions(calls, |calls|);
  }

  lemma {:induction false} OptionsPrefix(calls: seq<Call>, more: seq<Call>, n: nat)
    requires n <= |calls|
    ensures OptionsOf(calls + more, n) == OptionsOf(calls, n)
  {
    if n > 0 {
      OptionsPrefix(calls, more, n - 1);
      assert (calls + more)[n - 1] == calls[n - 1];
    }
  }

  lemma LastCall(columns: seq<Column>, calls: seq<Call>, call: Call)
    ensures ChainOptions(columns, calls + [call]) == ChainOptions(columns, calls) + call.Options()
  {
    OptionsPrefix(calls, [call], |calls|);
    assert (calls + [call])[|calls|] == call;
  }

  lemma NothingInTail(os: seq<ConflictOption>, call: Call)
    ensures DoNothingOption in os + call.Options() <==> DoNothingOption in os || call.DoNothing?
  {
    match call
    case DoNothing => assert call.Options()[0] == DoNothingOption;
    case _ =>
  }

  /** UpdateNewValues as the last call, without DoNothing: every inserted column but created_at takes
      the proposed value, whatever was called before; the other columns are as they were without
      that call. */
  lemma UpdateNewValuesLast(columns: seq<Column>, calls: seq<Call>, ms: seq<Row>, existing: Row, proposed: Row,
                            c: Column)
    requires forall i | 0 <= i < |calls| :: !calls[i].DoNothing?
    ensures Resolved(ChainOptions(columns, calls + [UpdateNewValues]), ms, existing, proposed, c) ==
              if !Inserted(ms, c) then Resolved(ChainOptions(columns, calls), ms, existing, proposed, c)
              else if c == CreatedAt then CellAt(existing, c)
              else CellAt(proposed, c)
  {
    var os := ChainOptions(columns, calls);
    LastCall(columns, calls, UpdateNewValues);
    NothingInOptions(calls, |calls|);
    NothingInTail(os, UpdateNewValues);
    RunCall(os, UpdateNewValues, ms);
    NewValuesAt(RunAll(os, |os|, ms), ms, existing, proposed, c);
  }

  lemma NewValuesAt(s: UpdateSet, ms: seq<Row>, existing: Row, proposed: Row, c: Column)
    ensures After(false, Run(KeepCreatedAt, ms, Run(ResolveWithNewValues, ms, s)), existing, proposed, c) ==
              if !Inserted(ms, c) then After(false, s, existing, proposed, c)
              else if c == CreatedAt then CellAt(existing, c)
              else CellAt(proposed, c)
  {
  }

  /** The same with the bare option, as the comment of UpdateNewValues spells it. */
  lemma NewValuesOptionLast(columns: seq<Column>, calls: seq<Call>, ms: seq<Row>, existing: Row, proposed: Row,
                            c: Column)
    requires forall i | 0 <= i < |calls| :: !calls[i].DoNothing?
    ensures Resolved(ChainOptions(columns, calls) + [ResolveWithNewValues], ms, existing, proposed, c) ==
              if !Inserted(ms, c) then Resolved(ChainOptions(columns, calls), ms, existing, proposed, c)
              else CellAt(proposed, c)
  {
    var os := ChainOptions(columns, calls);
    NothingInOptions(calls, |calls|);
    RunOption(os, ResolveWithNewValues, ms);
    OptionAt(RunAll(os, |os|, ms), ms, existing, proposed, c);
  }

  lemma RunOption(os: seq<ConflictOption>, o: ConflictOption, ms: seq<Row>)
    ensures RunAll(os + [o], |os + [o]|, ms) == Run(o, ms, RunAll(os, |os|, ms))
  {
    RunAppend(os, [o], |os|, ms);
    assert (os + [o])[|os|] == o;
  }

  lemma OptionAt(s: UpdateSet, ms: seq<Row>, existing: Row, proposed: Row, c: Column)
    ensures After(false, Run(ResolveWithNewValues, ms, s), existing, proposed, c) ==
              if !Inserted(ms, c) then After(false, s, existing, proposed, c) else CellAt(proposed, c)
  {
  }

  /** Two option lists that do the same to every cell of every row. */
  ghost predicate Equivalent(os: seq<ConflictOption>, os': seq<ConflictOption>, ms: seq<Row>) {
    forall existing, proposed, c :: Resolved(os, ms, existing, proposed, c) == Resolved(os', ms, existing, proposed, c)
  }

  lemma SameUnderNothing(os: seq<ConflictOption>, os': seq<ConflictOption>, ms: seq<Row>)
    requires DoNothingOption in os && DoNothingOption in os'
    ensures Equivalent(os, os', ms)
  {
  }

  /** UpdateNewValues at the end of a chain is the option its comment calls equivalent, exactly if no
      builder sets created_at or a DoNothing decides anyway. */
  lemma UpdateNewValuesIsOptionIff(columns: seq<Column>, calls: seq<Call>, ms: seq<Row>)
    ensures Equivalent(ChainOptions(columns, calls + [UpdateNewValues]),
                       ChainOptions(columns, calls) + [ResolveWithNewValues], ms)
            <==> !Inserted(ms, CreatedAt) || exists i | 0 <= i < |calls| :: calls[i].DoNothing?
  {
    var os := ChainOptions(columns, calls + [UpdateNewValues]);
    var os' := ChainOptions(columns, calls) + [ResolveWithNewValues];
    if exists i | 0 <= i < |calls| :: calls[i].DoNothing? {
      NothingInOptions(calls, |calls|);
      LastCall(columns, calls, UpdateNewValues);
      SameUnderNothing(os, os', ms);
    } else {
      if Inserted(ms, CreatedAt) {
        var existing, proposed: Row := map[CreatedAt := Int(0)], map[CreatedAt := Int(1)];
        UpdateNewValuesLast(columns, calls, ms, existing, proposed, CreatedAt);
        NewValuesOptionLast(columns, calls, ms, existing, proposed, CreatedAt);
        assert Resolved(os, ms, existing, proposed, CreatedAt) != Resolved(os', ms, existing, proposed, CreatedAt);
      } else {
        forall existing, proposed, c ensures Resolved(os, ms, existing, proposed, c) == Resolved(os', ms, existing,
            proposed, c) {
          UpdateNewValuesLast(columns, calls, ms, existing, proposed, c);
          NewValuesOptionLast(columns, calls, ms, existing, proposed, c);
        }
      }
    }
  }

  /** Ignore as the last call: the inserted columns keep their values.  A column that no builder
      inserts keeps what the earlier calls did to it, so the row is left alone only if the earlier
      calls confined themselves to inserted columns. */
  lemma IgnoreLast(columns: seq<Column>, calls: seq<Call>, ms: seq<Row>, existing: Row, proposed: Row, c: Column)
    ensures Resolved(ChainOptions(columns, calls + [Ignore]), ms, existing, proposed, c) ==
              if Inserted(ms, c) then CellAt(existing, c)
              else Resolved(ChainOptions(columns, calls), ms, existing, proposed, c)
  {
    var os := ChainOptions(columns, calls);
    LastCall(columns, calls, Ignore);
    NothingInTail(os, Ignore);
    RunCall(os, Ignore, ms);
    IgnoreAt(DoNothingOption in os, RunAll(os, |os|, ms), ms, existing, proposed, c);
  }

  lemma IgnoreAt(nothing: bool, s: UpdateSet, ms: seq<Row>, existing: Row, proposed: Row, c: Column)
    ensures After(nothing, Run(ResolveWithIgnore, ms, s), existing, proposed, c) ==
              if Inserted(ms, c) then CellAt(existing, c) else After(nothing, s, existing, proposed, c)
  {
  }

  // ---------------------------------------------------------------- single setters

  lemma {:induction false} LastEdit(edits: seq<Edit>, n: nat, s: UpdateSet, i: nat)
    requires i < n <= |edits| && forall j | i < j < n :: edits[j].column != edits[i].column
    ensures edits[i].column in ApplyEdits(edits, n, s)
    ensures ApplyEdits(edits, n, s)[edits[i].column] == edits[i].source
  {
    if i < n - 1 {
      LastEdit(edits, n - 1, s, i);
    }
  }

  lemma {:induction false} NoEdit(edits: seq<Edit>, n: nat, s: UpdateSet, c: Column)
    requires n <= |edits| && forall j | 0 <= j < n :: edits[j].column != c
    ensures c in ApplyEdits(edits, n, s) <==> c in s
    ensures c in s ==> ApplyEdits(edits, n, s)[c] == s[c]
  {
    if n > 0 {
      NoEdit(edits, n - 1, s, c);
    }
  }

  lemma RunUpdate(os: seq<ConflictOption>, edits: seq<Edit>, ms: seq<Row>)
    ensures var all := os + [ResolveWith(edits)];
            RunAll(all, |all|, ms) == ApplyEdits(edits, |edits|, RunAll(os, |os|, ms))
  {
    RunOption(os, ResolveWith(edits), ms);
  }

  lemma UpdateAppends(columns: seq<Column>, calls: seq<Call>, edits: seq<Edit>)
    requires forall k | 0 <= k < |calls| :: !calls[k].DoNothing?
    ensures ChainOptions(columns, calls + [Update(edits)]) == ChainOptions(columns, calls) + [ResolveWith(edits)]
    ensures DoNothingOption !in ChainOptions(columns, calls)
    ensures DoNothingOption !in ChainOptions(columns, calls + [Update(edits)])
  {
    LastCall(columns, calls, Update(edits));
    NothingInOptions(calls, |calls|);
    NothingInTail(ChainOptions(columns, calls), Update(edits));
  }

  lemma UpdateIs(columns: seq<Column>, calls: seq<Call>, edits: seq<Edit>, ms: seq<Row>, existing: Row, proposed: Row,
                 c: Column)
    requires forall k | 0 <= k < |calls| :: !calls[k].DoNothing?
    ensures var os := ChainOptions(columns, calls);
            && DoNothingOption !in os
            && Resolved(ChainOptions(columns, calls + [Update(edits)]), ms, existing, proposed, c) ==
                 After(false, ApplyEdits(edits, |edits|, RunAll(os, |os|, ms)), existing, proposed, c)
  {
    UpdateAppends(columns, calls, edits);
    RunUpdate(ChainOptions(columns, calls), edits, ms);
  }

  /** Setters as the last call: of several for one column the last one counts.  A value is stored, an
      Update takes the proposed value, a Clear stores NULL, and an Add adds to what is there, NULL
      counting as zero. */
  lemma UpdateLast(columns: seq<Column>, calls: seq<Call>, edits: seq<Edit>, ms: seq<Row>, existing: Row,
                   proposed: Row, i: nat)
    requires forall k | 0 <= k < |calls| :: !calls[k].DoNothing?
    requires i < |edits| && forall j | i < j < |edits| :: edits[j].column != edits[i].column
    ensures var c, src := edits[i].column, edits[i].source;
            var r := Resolved(ChainOptions(columns, calls + [Update(edits)]), ms, existing, proposed, c);
            && (src.Value? ==> r == src.v)
            && (src.Excluded? ==> r == if c in proposed then proposed[c] else Null)
            && (src.Itself? ==> r == if c in existing then existing[c] else Null)
            && (src.Cleared? ==> r == Null)
            && (src.Plus? && src.amount.Int? && (c !in existing || existing[c].Null?) ==> r == src.amount)
            && (src.Plus? && src.amount.Int? && c in existing && existing[c].Int? ==>
                  r == Int(existing[c].i + src.amount.i))
            && (src.Plus? && src.amount.Float? && (c !in existing || existing[c].Null?) ==> r == src.amount)
            && (src.Plus? && src.amount.Float? && c in existing && existing[c].Float? ==>
                  r == Float(existing[c].r + src.amount.r))
  {
    var os := ChainOptions(columns, calls);
    UpdateIs(columns, calls, edits, ms, existing, proposed, edits[i].column);
    LastEdit(edits, |edits|, RunAll(os, |os|, ms), i);
  }

  /** A column that no setter of the last call names is as it was before that call. */
  lemma UpdateLeavesOthers(columns: seq<Column>, calls: seq<Call>, edits: seq<Edit>, ms: seq<Row>, existing: Row,
                           proposed: Row, c: Column)
    requires forall k | 0 <= k < |calls| :: !calls[k].DoNothing?
    requires forall j | 0 <= j < |edits| :: edits[j].column != c
    ensures Resolved(ChainOptions(columns, calls + [Update(edits)]), ms, existing, proposed, c) ==
              Resolved(ChainOptions(columns, calls), ms, existing, proposed, c)
  {
    var os := ChainOptions(columns, calls);
    UpdateIs(columns, calls, edits, ms, existing, proposed, c);
    NoEdit(edits, |edits|, RunAll(os, |os|, ms), c);
  }

  /** Before any call an existing row keeps every cell. */
  lemma NothingCalled(columns: seq<Column>, ms: seq<Row>, existing: Row, proposed: Row, c: Column)
    ensures Resolved(ChainOptions(columns, []), ms, existing, proposed, c) ==
              if c in existing then existing[c] else Null
  {
    var os := [ConflictColumns(columns)];
    assert ChainOptions(columns, []) == os;
    assert RunAll(os, 0, ms) == map[];
    assert RunAll(os, 1, ms) == map[];
  }

  /** Which columns the named methods set, clear and add to. */
  lemma NamedColumns(c: Column, v: Cell)
    ensures NamedEdit(Edit(c, Value(v))) <==>
              c != ID && c != CreatedAt && c != AccountID && c != GroupID && !c.Other?
    ensures NamedEdit(Edit(c, Excluded)) <==> NamedEdit(Edit(c, Value(v)))
    ensures NamedEdit(Edit(c, Plus(v))) <==>
              c == ProxyFallbackOriginID || c == Concurrency || c == LoadFactor || c == Priority || c == RateMultiplier
    ensures NamedEdit(Edit(c, Cleared)) <==>
              match c
              case DeletedAt | Notes | ProxyID | ProxyFallbackOriginID | LoadFactor | ErrorMessage | LastUsedAt
                 | ExpiresAt | RateLimitedAt | RateLimitResetAt | OverloadUntil | TempUnschedulableUntil
                 | TempUnschedulableReason | SessionWindowStart | SessionWindowEnd | SessionWindowStatus
                 | ParentAccountID => true
              case _ => false
    ensures !NamedEdit(Edit(c, Itself))
  {
  }

  /** The INSERT of a bulk has a column as soon as one builder sets it, so what the final call does to
      that column it does to the rows of all builders. */
  lemma OneBuilderSuffices(columns: seq<Column>, calls: seq<Call>, ms: seq<Row>, existing: Row, proposed: Row,
                           c: Column, i: nat)
    requires (forall k | 0 <= k < |calls| :: !calls[k].DoNothing?) && i < |ms| && c in ms[i]
    ensures Resolved(ChainOptions(columns, calls + [Ignore]), ms, existing, proposed, c) ==
              if c in existing then existing[c] else Null
    ensures var r := Resolved(ChainOptions(columns, calls + [UpdateNewValues]), ms, existing, proposed, c);
            if c == CreatedAt then r == if c in existing then existing[c] else Null
            else r == if c in proposed then proposed[c] else Null
  {
    assert Inserted(ms, c);
    IgnoreLast(columns, calls, ms, existing, proposed, c);
    UpdateNewValuesLast(columns, calls, ms, existing, proposed, c);
  }

  /** A column that no builder sets stays as the earlier calls left it. */
  lemma UnsetColumnStays(columns: seq<Column>, calls: seq<Call>, ms: seq<Row>, existing: Row, proposed: Row, c: Column)
    requires (forall k | 0 <= k < |calls| :: !calls[k].DoNothing?) && forall i | 0 <= i < |ms| :: c !in ms[i]
    ensures Resolved(ChainOptions(columns, calls + [Ignore]), ms, existing, proposed, c) ==
              Resolved(ChainOptions(columns, calls), ms, existing, proposed, c)
    ensures Resolved(ChainOptions(columns, calls + [UpdateNewValues]), ms, existing, proposed, c) ==
              Resolved(ChainOptions(columns, calls), ms, existing, proposed, c)
  {
    assert !Inserted(ms, c);
    IgnoreLast(columns, calls, ms, existing, proposed, c);
    UpdateNewValuesLast(columns, calls, ms, existing, proposed, c);
  }
}
