/** Facts about SELECT: which rows come back, that keys stay distinct, and that restricting the
    rows afterwards is the same as restricting the query. */
module QueryFacts {
  import opened Schema
  import opened Store

  lemma {:induction false} FilterMembers(ps: seq<Pred>, rows: seq<Row>, r: Row)
    ensures r in Filter(ps, rows) <==> r in rows && HoldsAll(ps, r)
  {
    if rows != [] {
      FilterMembers(ps, rows[1..], r);
    }
  }

  lemma SortMembers(o: seq<OrderTerm>, rows: seq<Row>, r: Row)
    ensures r in Sort(o, rows) <==> r in rows
  {
    assert r in Sort(o, rows) <==> r in multiset(Sort(o, rows));
    assert r in rows <==> r in multiset(rows);
  }

  /** A fetched row is a row of the table that satisfies every predicate. */
  lemma FetchHolds(rows: seq<Row>, core: Core, i: nat)
    requires i < |Fetch(rows, core)|
    ensures Fetch(rows, core)[i] in rows && HoldsAll(core.predicates, Fetch(rows, core)[i])
  {
    var r := Fetch(rows, core)[i];
    assert r in Sort(core.order, Filter(core.predicates, rows));
    SortMembers(core.order, Filter(core.predicates, rows), r);
    FilterMembers(core.predicates, rows, r);
  }

  predicate Unwindowed(core: Core) {
    (core.limit.None? || core.limit.value == 0) && (core.offset.None? || core.offset.value == 0)
  }

  /** Without LIMIT and OFFSET every row that satisfies the predicates is fetched. */
  lemma FetchComplete(rows: seq<Row>, core: Core, r: Row)
    requires Unwindowed(core)
    ensures r in Fetch(rows, core) <==> r in rows && HoldsAll(core.predicates, r)
  {
    assert Fetch(rows, core) == Sort(core.order, Filter(core.predicates, rows));
    SortMembers(core.order, Filter(core.predicates, rows), r);
    FilterMembers(core.predicates, rows, r);
  }

  // ---------------------------------------------------------------- distinct keys

  lemma ConsKeys(x: Row, rows: seq<Row>)
    requires KeyOf(x, ID).Some? && PrimaryKey(rows) && forall r | r in rows :: IdOf(r) != IdOf(x)
    ensures PrimaryKey([x] + rows)
  {
  }

  lemma {:induction false} FilterKeys(ps: seq<Pred>, rows: seq<Row>)
    requires PrimaryKey(rows)
    ensures PrimaryKey(Filter(ps, rows))
  {
    if rows != [] {
      FilterKeys(ps, rows[1..]);
      if HoldsAll(ps, rows[0]) {
        forall r | r in Filter(ps, rows[1..]) ensures IdOf(r) != IdOf(rows[0]) {
          FilterMembers(ps, rows[1..], r);
        }
        ConsKeys(rows[0], Filter(ps, rows[1..]));
      }
    }
  }

  lemma {:induction false} InsertKeys(o: seq<OrderTerm>, x: Row, rows: seq<Row>)
    requires KeyOf(x, ID).Some? && PrimaryKey(rows) && forall r | r in rows :: IdOf(r) != IdOf(x)
    ensures PrimaryKey(Insert(o, x, rows))
  {
    if rows == [] || Leq(o, x, rows[0]) {
      ConsKeys(x, rows);
    } else {
      InsertKeys(o, x, rows[1..]);
      var rest := Insert(o, x, rows[1..]);
      forall r | r in rest ensures IdOf(r) != IdOf(rows[0]) {
        assert r in multiset(rest);
        assert r == x || r in rows[1..];
      }
      ConsKeys(rows[0], rest);
    }
  }

  lemma {:induction false} SortKeys(o: seq<OrderTerm>, rows: seq<Row>)
    requires PrimaryKey(rows)
    ensures PrimaryKey(Sort(o, rows))
  {
    if rows != [] {
      SortKeys(o, rows[1..]);
      forall r | r in Sort(o, rows[1..]) ensures IdOf(r) != IdOf(rows[0]) {
        SortMembers(o, rows[1..], r);
      }
      InsertKeys(o, rows[0], Sort(o, rows[1..]));
    }
  }

  /** The rows of one query keep the distinct primary keys of their table. */
  lemma FetchKeys(rows: seq<Row>, core: Core)
    requires PrimaryKey(rows)
    ensures PrimaryKey(Fetch(rows, core))
  {
    FilterKeys(core.predicates, rows);
    SortKeys(core.order, Filter(core.predicates, rows));
  }

  // ---------------------------------------------------------------- restricting a query

  lemma {:induction false} LeqTotal(o: seq<OrderTerm>, a: Row, b: Row)
    ensures Leq(o, a, b) || Leq(o, b, a)
  {
    if o != [] { LeqTotal(o[1..], a, b); }
  }

  lemma {:induction false} LeqTransitive(o: seq<OrderTerm>, a: Row, b: Row, c: Row)
    requires Leq(o, a, b) && Leq(o, b, c)
    ensures Leq(o, a, c)
  {
    if o != [] && o[0](a) == o[0](b) == o[0](c) { LeqTransitive(o[1..], a, b, c); }
  }

  ghost predicate Sorted(o: seq<OrderTerm>, rows: seq<Row>) {
    forall i, j | 0 <= i < j < |rows| :: Leq(o, rows[i], rows[j])
  }

  lemma {:induction false} InsertSorted(o: seq<OrderTerm>, x: Row, rows: seq<Row>)
    requires Sorted(o, rows)
    ensures Sorted(o, Insert(o, x, rows))
  {
    if rows != [] {
      if Leq(o, x, rows[0]) {
        forall j | 0 <= j < |rows| ensures Leq(o, x, rows[j]) {
          if j > 0 { LeqTransitive(o, x, rows[0], rows[j]); }
        }
      } else {
        InsertSorted(o, x, rows[1..]);
        var rest := Insert(o, x, rows[1..]);
        forall j | 0 <= j < |rest| ensures Leq(o, rows[0], rest[j]) {
          assert rest[j] in multiset(rest);
          LeqTotal(o, x, rows[0]);
        }
      }
    }
  }

  lemma {:induction false} SortSorted(o: seq<OrderTerm>, rows: seq<Row>)
    ensures Sorted(o, Sort(o, rows))
  {
    if rows != [] {
      SortSorted(o, rows[1..]);
      InsertSorted(o, rows[0], Sort(o, rows[1..]));
    }
  }

  lemma FilterCons(ps: seq<Pred>, x: Row, rows: seq<Row>)
    ensures Filter(ps, [x] + rows) == if HoldsAll(ps, x) then [x] + Filter(ps, rows) else Filter(ps, rows)
  {
    assert ([x] + rows)[1..] == rows;
  }

  /** Inserting below every element puts the new row in front. */
  lemma InsertFront(o: seq<OrderTerm>, x: Row, rows: seq<Row>)
    requires forall r | r in rows :: Leq(o, x, r)
    ensures Insert(o, x, rows) == [x] + rows
  {
  }

  lemma FilteredAbove(o: seq<OrderTerm>, ps: seq<Pred>, x: Row, rows: seq<Row>, r: Row)
    requires Sorted(o, rows) && rows != [] && Leq(o, x, rows[0]) && r in Filter(ps, rows)
    ensures Leq(o, x, r)
  {
    FilterMembers(ps, rows, r);
    var j :| 0 <= j < |rows| && rows[j] == r;
    if j > 0 { LeqTransitive(o, x, rows[0], r); }
  }

  lemma {:induction false} FilterInsert(o: seq<OrderTerm>, ps: seq<Pred>, x: Row, rows: seq<Row>)
    requires Sorted(o, rows)
    ensures Filter(ps, Insert(o, x, rows)) == if HoldsAll(ps, x) then Insert(o, x, Filter(ps, rows)) else Filter(ps,
              rows)
    decreases rows, 1
  {
    if rows == [] || Leq(o, x, rows[0]) {
      FilterCons(ps, x, rows);
      forall r | r in Filter(ps, rows) ensures Leq(o, x, r) {
        FilteredAbove(o, ps, x, rows, r);
      }
      InsertFront(o, x, Filter(ps, rows));
    } else {
      FilterInsertBehind(o, ps, x, rows);
    }
  }

  lemma FilterInsertBehind(o: seq<OrderTerm>, ps: seq<Pred>, x: Row, rows: seq<Row>)
    requires Sorted(o, rows) && rows != [] && !Leq(o, x, rows[0])
    ensures Filter(ps, Insert(o, x, rows)) == if HoldsAll(ps, x) then Insert(o, x, Filter(ps, rows)) else Filter(ps,
              rows)
    decreases rows, 0
  {
    var rest := rows[1..];
    FilterInsert(o, ps, x, rest);
    FilterCons(ps, rows[0], Insert(o, x, rest));
    if HoldsAll(ps, rows[0]) {
      assert Filter(ps, rows)[1..] == Filter(ps, rest);
    }
  }

  /** A stable sort commutes with restricting the rows. */
  lemma {:induction false} FilterSort(o: seq<OrderTerm>, ps: seq<Pred>, rows: seq<Row>)
    ensures Filter(ps, Sort(o, rows)) == Sort(o, Filter(ps, rows))
  {
    if rows != [] {
      var rest := rows[1..];
      FilterSort(o, ps, rest);
      SortSorted(o, rest);
      FilterInsert(o, ps, rows[0], Sort(o, rest));
      SortCons(o, rows[0], Filter(ps, rest));
    }
  }

  lemma SortCons(o: seq<OrderTerm>, x: Row, rows: seq<Row>)
    ensures Sort(o, [x] + rows) == Insert(o, x, Sort(o, rows))
  {
    assert ([x] + rows)[1..] == rows;
  }

  lemma HoldsBoth(ps: seq<Pred>, qs: seq<Pred>, r: Row)
    ensures HoldsAll(ps + qs, r) <==> HoldsAll(ps, r) && HoldsAll(qs, r)
  {
    if HoldsAll(ps + qs, r) {
      assert forall i | 0 <= i < |ps| :: ps[i] == (ps + qs)[i];
      assert forall i | 0 <= i < |qs| :: qs[i] == (ps + qs)[|ps| + i];
    }
  }

  lemma {:induction false} FilterTwice(ps: seq<Pred>, qs: seq<Pred>, both: seq<Pred>, rows: seq<Row>)
    requires forall r | r in rows :: HoldsAll(both, r) <==> HoldsAll(ps, r) && HoldsAll(qs, r)
    ensures Filter(qs, Filter(ps, rows)) == Filter(both, rows)
  {
    if rows != [] {
      FilterTwice(ps, qs, both, rows[1..]);
      if HoldsAll(ps, rows[0]) {
        FilterCons(qs, rows[0], Filter(ps, rows[1..]));
      }
    }
  }

  /** Without LIMIT and OFFSET, keeping the fetched rows that satisfy further predicates is the
      same as adding those predicates to the query. */
  lemma FetchRestrict(rows: seq<Row>, core: Core, core': Core, qs: seq<Pred>)
    requires Unwindowed(core) && core'.order == core.order && core'.limit == core.limit && core'.offset == core.offset
    requires forall r | r in rows ::
               HoldsAll(core'.predicates, r) <==> HoldsAll(core.predicates, r) && HoldsAll(qs, r)
    ensures Fetch(rows, core') == Filter(qs, Fetch(rows, core))
  {
    FilterSort(core.order, qs, Filter(core.predicates, rows));
    FilterTwice(core.predicates, qs, core'.predicates, rows);
  }
}
