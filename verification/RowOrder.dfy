/** In which order a query returns its rows, and what LIMIT and OFFSET leave of them. */
module RowOrder {
  import opened Schema
  import opened Store
  import opened QueryFacts

  // ---------------------------------------------------------------- order terms

  /** At the first term in which the rows differ, a has the smaller rank. */
  ghost predicate Precedes(o: seq<OrderTerm>, a: Row, b: Row) {
    exists t :: 0 <= t < |o| && o[t](a) < o[t](b) && forall s | 0 <= s < t :: o[s](a) == o[s](b)
  }

  ghost predicate Ties(o: seq<OrderTerm>, a: Row, b: Row) {
    forall t | 0 <= t < |o| :: o[t](a) == o[t](b)
  }

  lemma {:induction false} LeqIs(o: seq<OrderTerm>, a: Row, b: Row)
    ensures Leq(o, a, b) <==> Precedes(o, a, b) || Ties(o, a, b)
  {
    if o != [] {
      var rest := o[1..];
      LeqIs(rest, a, b);
      assert forall t | 1 <= t < |o| :: o[t] == rest[t - 1];
      if o[0](a) == o[0](b) {
        if Precedes(rest, a, b) {
          var t :| 0 <= t < |rest| && rest[t](a) < rest[t](b) && forall s | 0 <= s < t :: rest[s](a) == rest[s](b);
          assert o[t + 1](a) < o[t + 1](b);
          assert forall s | 0 <= s < t + 1 :: o[s](a) == o[s](b);
        }
        if Precedes(o, a, b) {
          var t :| 0 <= t < |o| && o[t](a) < o[t](b) && forall s | 0 <= s < t :: o[s](a) == o[s](b);
          assert rest[t - 1](a) < rest[t - 1](b);
          assert forall s | 0 <= s < t - 1 :: rest[s] == o[s + 1];
        }
      } else if Leq(o, a, b) {
        assert o[0](a) < o[0](b);
      }
    }
  }

  // ---------------------------------------------------------------- stability

  /** Row a stands somewhere before row b. */
  ghost predicate Before(rows: seq<Row>, a: Row, b: Row) {
    exists i, j :: 0 <= i < j < |rows| && rows[i] == a && rows[j] == b
  }

  lemma BeforeTail(x: Row, rows: seq<Row>, a: Row, b: Row)
    ensures Before([x] + rows, a, b) <==> (x == a && b in rows) || Before(rows, a, b)
  {
    var all := [x] + rows;
    if Before(all, a, b) {
      var i, j :| 0 <= i < j < |all| && all[i] == a && all[j] == b;
      assert all[j] == rows[j - 1];
      if i > 0 { assert all[i] == rows[i - 1]; }
    }
    if x == a && b in rows {
      var j :| 0 <= j < |rows| && rows[j] == b;
      assert all[0] == a && all[j + 1] == b;
    }
    if Before(rows, a, b) {
      var i, j :| 0 <= i < j < |rows| && rows[i] == a && rows[j] == b;
      assert all[i + 1] == a && all[j + 1] == b;
    }
  }

  lemma {:induction false} FilterBefore(ps: seq<Pred>, rows: seq<Row>, a: Row, b: Row)
    ensures Before(Filter(ps, rows), a, b) ==> Before(rows, a, b)
    ensures HoldsAll(ps, a) && HoldsAll(ps, b) && Before(rows, a, b) ==> Before(Filter(ps, rows), a, b)
  {
    if rows != [] {
      var rest := rows[1..];
      FilterBefore(ps, rest, a, b);
      FilterMembers(ps, rest, b);
      BeforeTail(rows[0], rest, a, b);
      BeforeTail(rows[0], Filter(ps, rest), a, b);
      assert rows == [rows[0]] + rest;
    }
  }

  /** Sorting leaves rows that all tie as they stand. */
  lemma {:induction false} SortTied(o: seq<OrderTerm>, rows: seq<Row>)
    requires forall r, s | r in rows && s in rows :: Leq(o, r, s)
    ensures Sort(o, rows) == rows
  {
    if rows != [] {
      SortTied(o, rows[1..]);
      assert rows == [rows[0]] + rows[1..];
    }
  }

  /** Just the rows a and b. */
  function Either(a: Row, b: Row): seq<Pred> {
    [Test(r => r == a || r == b)]
  }

  lemma EitherHolds(a: Row, b: Row, r: Row)
    ensures HoldsAll(Either(a, b), r) <==> r == a || r == b
  {
    assert HoldsAll(Either(a, b), r) <==> Holds(Either(a, b)[0], r);
  }

  /** A sort keeps the order of rows that tie. */
  lemma SortStable(o: seq<OrderTerm>, rows: seq<Row>, a: Row, b: Row)
    requires Ties(o, a, b)
    ensures Before(Sort(o, rows), a, b) <==> Before(rows, a, b)
  {
    var ps := Either(a, b);
    var some := Filter(ps, rows);
    EitherHolds(a, b, a);
    EitherHolds(a, b, b);
    FilterBefore(ps, rows, a, b);
    FilterBefore(ps, Sort(o, rows), a, b);
    FilterSort(o, ps, rows);
    forall r, s | r in some && s in some ensures Leq(o, r, s) {
      FilterMembers(ps, rows, r);
      FilterMembers(ps, rows, s);
      EitherHolds(a, b, r);
      EitherHolds(a, b, s);
      LeqIs(o, r, s);
    }
    SortTied(o, some);
  }

  // ---------------------------------------------------------------- the rows of a query

  lemma WindowShifts<T>(s: seq<T>, limit: Option<nat>, offset: Option<nat>) returns (from: nat)
    ensures from + |Window(s, limit, offset)| <= |s|
    ensures forall k | 0 <= k < |Window(s, limit, offset)| :: Window(s, limit, offset)[k] == s[from + k]
  {
    from := if offset.Some? then (if offset.value <= |s| then offset.value else |s|) else 0;
  }

  /** Of any two fetched rows the first precedes the second, or they tie and stand in the order of the
      table. */
  lemma FetchInOrder(rows: seq<Row>, core: Core, i: nat, j: nat)
    requires i < j < |Fetch(rows, core)|
    ensures var a, b := Fetch(rows, core)[i], Fetch(rows, core)[j];
            Precedes(core.order, a, b) || (Ties(core.order, a, b) && Before(rows, a, b))
  {
    var passed := Filter(core.predicates, rows);
    var sorted := Sort(core.order, passed);
    var from := WindowShifts(sorted, core.limit, core.offset);
    var a, b := sorted[from + i], sorted[from + j];
    SortSorted(core.order, passed);
    LeqIs(core.order, a, b);
    if Ties(core.order, a, b) {
      assert Before(sorted, a, b);
      SortStable(core.order, passed, a, b);
      FilterBefore(core.predicates, rows, a, b);
    }
  }

  /** OFFSET skips that many rows, LIMIT then keeps at most that many; zero means no limit. */
  lemma WindowKeeps<T>(s: seq<T>, limit: nat, offset: nat)
    ensures var rest := if offset <= |s| then |s| - offset else 0;
            && |Window(s, Some(limit), Some(offset))| == (if 0 < limit < rest then limit else rest)
            && |Window(s, None, Some(offset))| == rest
            && |Window(s, Some(limit), None)| == (if 0 < limit < |s| then limit else |s|)
            && Window(s, None, None) == s
    ensures forall k | 0 <= k < |Window(s, Some(limit), Some(offset))| ::
              Window(s, Some(limit), Some(offset))[k] == s[offset + k]
    ensures forall k | 0 <= k < |Window(s, None, Some(offset))| :: Window(s, None, Some(offset))[k] == s[offset + k]
    ensures forall k | 0 <= k < |Window(s, Some(limit), None)| :: Window(s, Some(limit), None)[k] == s[k]
  {
  }
}
