/** What one node's own sub-query returns, in terms of the batch: the batch without its window, cut
    down to the node's rows, and then cut by the window. */
module Batches {
  import opened Schema
  import opened Store
  import opened QueryFacts
  import opened EagerSpec
  import opened Windows
  import opened Bags
  import opened PerNodeSpec

  // ---------------------------------------------------------------- restricting a batch to one key

  /** Keeping the rows with key k is picking the positions that hold it. */
  lemma {:induction false} FilterIsHits(rows: seq<Row>, n: nat, c: Column, k: int)
    requires n <= |rows|
    ensures Filter([ColumnIn(c, {k})], rows[..n]) == Pick(rows, HitsTo(Keys(rows, c), n, k))
  {
    if n != 0 {
      FilterIsHits(rows, n - 1, c, k);
      assert rows[..n] == rows[..n - 1] + [rows[n - 1]];
      FilterSnoc([ColumnIn(c, {k})], rows[..n - 1], rows[n - 1]);
      PickSnoc(rows, HitsTo(Keys(rows, c), n - 1, k), n - 1);
      OneHolds(c, k, rows[n - 1]);
    }
  }

  lemma OneHolds(c: Column, k: int, r: Row)
    ensures HoldsAll([ColumnIn(c, {k})], r) <==> KeyOf(r, c) == Some(k)
  {
    assert HoldsAll([ColumnIn(c, {k})], r) <==> Holds([ColumnIn(c, {k})][0], r);
  }

  lemma {:induction false} FilterSnoc(ps: seq<Pred>, rows: seq<Row>, x: Row)
    ensures Filter(ps, rows + [x]) == Filter(ps, rows) + if HoldsAll(ps, x) then [x] else []
  {
    if rows != [] {
      FilterSnoc(ps, rows[1..], x);
      assert (rows + [x])[1..] == rows[1..] + [x];
    } else {
      assert [x][1..] == [];
      assert rows + [x] == [x];
    }
  }

  lemma WhereHolds(q: Core, c: Column, ks: set<int>, r: Row)
    ensures HoldsAll(Traverse(Where(q, ColumnIn(c, ks))).predicates, r)
       <==> HoldsAll(q.predicates, r) && HoldsAll(Traversed(q.inters), r) && KeyOf(r, c).Some? && KeyOf(r,
           c).value in ks
  {
    HoldsBoth(q.predicates + [ColumnIn(c, ks)], Traversed(q.inters), r);
    HoldsBoth(q.predicates, [ColumnIn(c, ks)], r);
    assert HoldsAll([ColumnIn(c, ks)], r) <==> Holds([ColumnIn(c, ks)][0], r);
  }

  /** The rows fetched for a set of keys, cut down to one of them, are the rows fetched for it. */
  lemma FetchOne(rows: seq<Row>, q: Core, c: Column, ks: set<int>, k: int)
    requires Unwindowed(q) && k in ks
    ensures var batch := Fetch(rows, Traverse(Where(q, ColumnIn(c, ks))));
      Fetch(rows, Traverse(Where(q, ColumnIn(c, {k})))) == Pick(batch, Hits(Keys(batch, c), k))
  {
    var batch := Fetch(rows, Traverse(Where(q, ColumnIn(c, ks))));
    forall r | r in rows
      ensures HoldsAll(Traverse(Where(q, ColumnIn(c, {k}))).predicates, r)
         <==> HoldsAll(Traverse(Where(q, ColumnIn(c, ks))).predicates, r) && HoldsAll([ColumnIn(c, {k})], r)
    {
      WhereHolds(q, c, ks, r);
      WhereHolds(q, c, {k}, r);
      OneHolds(c, k, r);
    }
    FetchRestrict(rows, Traverse(Where(q, ColumnIn(c, ks))), Traverse(Where(q, ColumnIn(c, {k}))), [ColumnIn(c, {k})]);
    FilterIsHits(batch, |batch|, c, k);
    assert batch[..|batch|] == batch;
  }

  lemma ScanKeys(rows: seq<Row>, columns: seq<Column>, c: Column)
    requires c in columns
    ensures Keys(ScanRows(rows, columns), c) == Keys(rows, c)
  {
  }

  lemma ScanPick(rows: seq<Row>, columns: seq<Column>, idx: seq<nat>)
    requires forall j | 0 <= j < |idx| :: idx[j] < |rows|
    ensures ScanRows(Pick(rows, idx), columns) == Pick(ScanRows(rows, columns), idx)
  {
  }

  // ---------------------------------------------------------------- windows

  lemma FetchWindow(rows: seq<Row>, core: Core)
    ensures Fetch(rows, core) == Window(Fetch(rows, Unlimited(core)), core.limit, core.offset)
  {
  }

  lemma ScanWindow(rows: seq<Row>, columns: seq<Column>, limit: Option<nat>, offset: Option<nat>)
    ensures ScanRows(Window(rows, limit, offset), columns) == Window(ScanRows(rows, columns), limit, offset)
  {
    WindowIs(rows, limit, offset);
    WindowIs(ScanRows(rows, columns), limit, offset);
    ScanSlice(rows, columns, Lo(|rows|, offset), Hi(|rows|, limit, offset));
  }

  lemma ScanSlice(rows: seq<Row>, columns: seq<Column>, lo: nat, hi: nat)
    requires lo <= hi <= |rows|
    ensures ScanRows(rows[lo..hi], columns) == ScanRows(rows, columns)[lo..hi]
  {
  }

  /** The rows of the batch, without its window. */
  function Whole(table: Table, q: Core, c: Column, ks: set<int>, columns: seq<Column>): seq<Row> {
    LeafRowsOf(table, Where(Unlimited(q), ColumnIn(c, ks)), columns)
  }

  lemma WholeKeys(table: Table, q: Core, c: Column, ks: set<int>, columns: seq<Column>)
    requires c in columns
    ensures Keys(Whole(table, q, c, ks, columns), c) == Owners(table, q, c, ks)
  {
    ScanKeys(Fetch(table.rows, Traverse(Where(Unlimited(q), ColumnIn(c, ks)))), columns, c);
  }

  lemma OwnersKnown(table: Table, q: Core, c: Column, ks: set<int>)
    ensures Keyed(Owners(table, q, c, ks)) && Known(Owners(table, q, c, ks), ks)
  {
    var core := Traverse(Where(Unlimited(q), ColumnIn(c, ks)));
    var rows := Fetch(table.rows, core);
    forall i | 0 <= i < |rows| ensures KeyOf(rows[i], c).Some? && KeyOf(rows[i], c).value in ks {
      FetchHolds(table.rows, core, i);
      WhereHolds(Unlimited(q), c, ks, rows[i]);
    }
    KnownExact(Owners(table, q, c, ks), |rows|, ks);
  }

  /** The batch is its whole cut by the window. */
  lemma BatchRows(table: Table, q: Core, c: Column, ks: set<int>, columns: seq<Column>)
    ensures LeafRowsOf(table, Where(q, ColumnIn(c, ks)), columns) == Window(Whole(table, q, c, ks, columns), q.limit,
              q.offset)
  {
    var core := Traverse(Where(q, ColumnIn(c, ks)));
    FetchWindow(table.rows, core);
    assert Unlimited(core) == Traverse(Where(Unlimited(q), ColumnIn(c, ks)));
    ScanWindow(Fetch(table.rows, Unlimited(core)), columns, q.limit, q.offset);
  }

  /** One key's own rows are the whole cut down to that key and then cut by the window. */
  lemma OwnRows(table: Table, q: Core, c: Column, ks: set<int>, k: int, columns: seq<Column>)
    requires k in ks && c in columns
    ensures LeafRowsOf(table, Where(q, ColumnIn(c, {k})), columns)
         == Window(Pick(Whole(table, q, c, ks, columns), Hits(Owners(table, q, c, ks), k)), q.limit, q.offset)
  {
    BatchRows(table, q, c, {k}, columns);
    var batch := Fetch(table.rows, Traverse(Where(Unlimited(q), ColumnIn(c, ks))));
    FetchOne(table.rows, Unlimited(q), c, ks, k);
    ScanPick(batch, columns, Hits(Keys(batch, c), k));
  }

  // ---------------------------------------------------------------- batches of any items

  /** Owner k gets from the windowed batch what its own windowed list is. */
  ghost predicate Given<T(!new)>(s: seq<T>, keys: seq<Option<int>>, limit: Option<nat>, offset: Option<nat>, k: int)
    requires |keys| == |s|
  {
    Pick(Window(s, limit, offset), Hits(Window(keys, limit, offset), k)) == Window(Pick(s, Hits(keys, k)), limit,
        offset)
  }

  lemma PickWindow<T>(s: seq<T>, idx: seq<nat>, limit: Option<nat>, offset: Option<nat>)
    requires forall j | 0 <= j < |idx| :: idx[j] < |s|
    ensures forall j | 0 <= j < |Window(idx, limit, offset)| :: Window(idx, limit, offset)[j] < |s|
    ensures Window(Pick(s, idx), limit, offset) == Pick(s, Window(idx, limit, offset))
  {
    WindowIs(idx, limit, offset);
    WindowIs(Pick(s, idx), limit, offset);
  }

  /** Both sides as positions of the whole batch. */
  lemma GivenIs<T(!new)>(s: seq<T>, keys: seq<Option<int>>, limit: Option<nat>, offset: Option<nat>, k: int)
    requires |keys| == |s|
    ensures var lo, hi := Lo(|s|, offset), Hi(|s|, limit, offset);
            && (forall j | 0 <= j < |Window(Hits(keys, k), limit, offset)| ::
                 Window(Hits(keys, k), limit, offset)[j] < |s|)
            && (Given(s, keys, limit, offset, k) <==>
                  Pick(s, Between(keys, lo, hi, k)) == Pick(s, Window(Hits(keys, k), limit, offset)))
  {
    WindowIs(s, limit, offset);
    WindowIs(keys, limit, offset);
    PickSlice(s, keys, Lo(|s|, offset), Hi(|s|, limit, offset), k);
    PickWindow(s, Hits(keys, k), limit, offset);
  }

  lemma PickInjective<T(!new)>(s: seq<T>, a: seq<nat>, b: seq<nat>)
    requires NoRepeats(s)
    requires (forall j | 0 <= j < |a| :: a[j] < |s|) && (forall j | 0 <= j < |b| :: b[j] < |s|)
    requires Pick(s, a) == Pick(s, b)
    ensures a == b
  {
    assert |Pick(s, a)| == |Pick(s, b)|;
    forall j | 0 <= j < |a| ensures a[j] == b[j] {
      assert Pick(s, a)[j] == Pick(s, b)[j];
    }
  }

  lemma LengthsDecide(keys: seq<Option<int>>, limit: Option<nat>, offset: Option<nat>, k: int)
    requires OneSided(limit, offset)
    requires CountIn(keys, Lo(|keys|, offset), Hi(|keys|, limit, offset), k) == |Window(Hits(keys, k), limit, offset)|
    ensures Served(keys, limit, offset, k)
  {
    var n := |keys|;
    var lo, hi := Lo(n, offset), Hi(n, limit, offset);
    HitsInThree(keys, lo, hi, k);
    CutLength(Between(keys, 0, lo, k), Between(keys, lo, hi, k), Between(keys, hi, n, k), limit, offset);
    ServedIffFair(keys, limit, offset, k);
  }

  lemma GivenIff<T(!new)>(s: seq<T>, keys: seq<Option<int>>, limit: Option<nat>, offset: Option<nat>, k: int)
    requires |keys| == |s| && (OneSided(limit, offset) || NoRepeats(s))
    ensures Given(s, keys, limit, offset, k) <==> Served(keys, limit, offset, k)
  {
    GivenIs(s, keys, limit, offset, k);
    PicksDecide(s, keys, limit, offset, k, Between(keys, Lo(|s|, offset), Hi(|s|, limit, offset), k),
                Window(Hits(keys, k), limit, offset));
  }

  lemma PicksDecide<T(!new)>(s: seq<T>, keys: seq<Option<int>>, limit: Option<nat>, offset: Option<nat>, k: int,
                             a: seq<nat>, b: seq<nat>)
    requires |keys| == |s| && (OneSided(limit, offset) || NoRepeats(s))
    requires (forall j | 0 <= j < |a| :: a[j] < |s|) && (forall j | 0 <= j < |b| :: b[j] < |s|)
    requires a == Between(keys, Lo(|s|, offset), Hi(|s|, limit, offset), k) && b == Window(Hits(keys, k), limit, offset)
    ensures Pick(s, a) == Pick(s, b) <==> a == b
  {
    if Pick(s, a) == Pick(s, b) {
      assert |Pick(s, a)| == |Pick(s, b)|;
      if OneSided(limit, offset) {
        LengthsDecide(keys, limit, offset, k);
      } else {
        PickInjective(s, a, b);
      }
    }
  }

  lemma ServedAbsent(keys: seq<Option<int>>, limit: Option<nat>, offset: Option<nat>, k: int)
    requires forall i | 0 <= i < |keys| :: keys[i] != Some(k)
    ensures Served(keys, limit, offset, k)
  {
    CountNone(keys, 0, |keys|, k);
    HitsAreBetween(keys, |keys|, k);
    CountNone(keys, Lo(|keys|, offset), Hi(|keys|, limit, offset), k);
  }

  /** It is enough to look at the owners that were asked for. */
  lemma ServedAmong(keys: seq<Option<int>>, limit: Option<nat>, offset: Option<nat>, ks: set<int>)
    requires Keyed(keys) && Known(keys, ks)
    ensures (forall k | k in ks :: Served(keys, limit, offset, k)) <==> Fits(keys, limit, offset)
  {
    FitsIff(keys, limit, offset);
    KnownExact(keys, |keys|, ks);
    forall k: int | k !in ks ensures Served(keys, limit, offset, k) {
      ServedAbsent(keys, limit, offset, k);
    }
  }

  // ---------------------------------------------------------------- leaf sub-queries

  lemma KeysWindow(rows: seq<Row>, c: Column, limit: Option<nat>, offset: Option<nat>)
    ensures Keys(Window(rows, limit, offset), c) == Window(Keys(rows, c), limit, offset)
  {
    WindowIs(rows, limit, offset);
    WindowIs(Keys(rows, c), limit, offset);
    KeysSlice(rows, c, Lo(|rows|, offset), Hi(|rows|, limit, offset));
  }

  lemma KeysSlice(rows: seq<Row>, c: Column, lo: nat, hi: nat)
    requires lo <= hi <= |rows|
    ensures Keys(rows[lo..hi], c) == Keys(rows, c)[lo..hi]
  {
  }

  /** The rows of key k in the batch are the rows of its own sub-query exactly if k is served. */
  lemma LeafIff(table: Table, q: Core, c: Column, ks: set<int>, k: int, columns: seq<Column>)
    requires k in ks && c in columns && (OneSided(q.limit, q.offset) || NoRepeats(Whole(table, q, c, ks, columns)))
    ensures var rows := LeafRowsOf(table, Where(q, ColumnIn(c, ks)), columns);
            Pick(rows, Hits(Keys(rows, c), k)) == LeafRowsOf(table, Where(q, ColumnIn(c, {k})), columns) <==>
              Served(Owners(table, q, c, ks), q.limit, q.offset, k)
  {
    var whole, owners := Whole(table, q, c, ks, columns), Owners(table, q, c, ks);
    BatchRows(table, q, c, ks, columns);
    OwnRows(table, q, c, ks, k, columns);
    WholeKeys(table, q, c, ks, columns);
    KeysWindow(whole, c, q.limit, q.offset);
    GivenIff(whole, owners, q.limit, q.offset, k);
  }

  /** The last match is the last of the matches. */
  lemma {:induction false} LastOfHits(keys: seq<Option<int>>, n: nat, k: int)
    requires n <= |keys|
    ensures LastTo(keys, n, Some(k)) == if HitsTo(keys, n, k) == [] then -1 else HitsTo(keys, n,
              k)[|HitsTo(keys, n, k)| - 1]
  {
    if n != 0 && keys[n - 1] != Some(k) {
      LastOfHits(keys, n - 1, k);
    }
  }

  lemma PickLast<T>(s: seq<T>, keys: seq<Option<int>>, k: int)
    requires |keys| == |s|
    ensures At(s, LastHit(keys, Some(k))) == Last(Pick(s, Hits(keys, k)))
  {
    LastOfHits(keys, |keys|, k);
  }

  lemma {:induction false} AtMostOneHit(keys: seq<Option<int>>, n: nat, k: int)
    requires NoRepeats(keys) && n <= |keys|
    ensures |HitsTo(keys, n, k)| <= 1
  {
    if n > 0 {
      if keys[n - 1] == Some(k) {
        HitsAreBetween(keys, n - 1, k);
        CountNone(keys, 0, n - 1, k);
      } else {
        AtMostOneHit(keys, n - 1, k);
      }
    }
  }

  lemma LastOfOne<T>(a: seq<T>, b: seq<T>)
    requires |a| <= 1 && |b| <= 1
    ensures Last(a) == Last(b) <==> a == b
  {
  }

  lemma DistinctOwners(table: Table, q: Core, c: Column, ks: set<int>, columns: seq<Column>)
    requires c in columns && NoRepeats(Owners(table, q, c, ks))
    ensures NoRepeats(Whole(table, q, c, ks, columns))
  {
    WholeKeys(table, q, c, ks, columns);
    var whole := Whole(table, q, c, ks, columns);
    forall i, j | 0 <= i < j < |whole| ensures whole[i] != whole[j] {
      assert Keys(whole, c)[i] != Keys(whole, c)[j];
    }
  }

  lemma WindowShrinks<T>(s: seq<T>, limit: Option<nat>, offset: Option<nat>)
    ensures |Window(s, limit, offset)| <= |s|
  {
  }

  lemma HitsShrink(keys: seq<Option<int>>, limit: Option<nat>, offset: Option<nat>, k: int)
    ensures |Hits(Window(keys, limit, offset), k)| <= |Hits(keys, k)|
  {
    WindowIs(keys, limit, offset);
    var lo, hi := Lo(|keys|, offset), Hi(|keys|, limit, offset);
    SliceHits(keys, lo, hi, hi - lo, k);
    HitsInThree(keys, lo, hi, k);
  }

  /** The many-to-one form: the last row with key k in the batch is the last one of its own
      sub-query exactly if k is served. */
  lemma LastIff(table: Table, q: Core, c: Column, ks: set<int>, k: int, columns: seq<Column>)
    requires k in ks && c in columns && NoRepeats(Owners(table, q, c, ks))
    ensures var rows := LeafRowsOf(table, Where(q, ColumnIn(c, ks)), columns);
            At(rows, LastHit(Keys(rows, c), Some(k))) == Last(LeafRowsOf(table, Where(q, ColumnIn(c, {k})),
                columns)) <==>
              Served(Owners(table, q, c, ks), q.limit, q.offset, k)
  {
    var rows, owners := LeafRowsOf(table, Where(q, ColumnIn(c, ks)), columns), Owners(table, q, c, ks);
    var own := LeafRowsOf(table, Where(q, ColumnIn(c, {k})), columns);
    DistinctOwners(table, q, c, ks, columns);
    LeafIff(table, q, c, ks, k, columns);
    PickLast(rows, Keys(rows, c), k);
    AtMostOneHit(owners, |owners|, k);
    OneOwnRow(table, q, c, ks, k, columns);
    LastOfOne(Pick(rows, Hits(Keys(rows, c), k)), own);
  }

  lemma OneOwnRow(table: Table, q: Core, c: Column, ks: set<int>, k: int, columns: seq<Column>)
    requires k in ks && c in columns && |Hits(Owners(table, q, c, ks), k)| <= 1
    ensures |LeafRowsOf(table, Where(q, ColumnIn(c, {k})), columns)| <= 1
    ensures |Hits(Keys(LeafRowsOf(table, Where(q, ColumnIn(c, ks)), columns), c), k)| <= 1
  {
    var whole, owners := Whole(table, q, c, ks, columns), Owners(table, q, c, ks);
    OwnRows(table, q, c, ks, k, columns);
    WindowShrinks(Pick(whole, Hits(owners, k)), q.limit, q.offset);
    BatchRows(table, q, c, ks, columns);
    WholeKeys(table, q, c, ks, columns);
    KeysWindow(whole, c, q.limit, q.offset);
    HitsShrink(owners, q.limit, q.offset, k);
  }

  lemma InKeys(base: seq<Row>, c: Column, i: nat)
    requires i < |base| && KeyOf(base[i], c).Some?
    ensures KeyOf(base[i], c).value in KeySet(Keys(base, c))
  {
    KeysExact(Keys(base, c), |base|);
    assert Keys(base, c)[i] == Some(KeyOf(base[i], c).value);
  }

  lemma InIds(base: seq<Row>, i: nat)
    requires i < |base|
    ensures IdOf(base[i]) in KeySet(IdKeys(base))
  {
    KeysExact(IdKeys(base), |base|);
    assert IdKeys(base)[i] == Some(IdOf(base[i]));
  }

  // ---------------------------------------------------------------- rows that can be told apart

  lemma {:induction false} FilterPart(ps: seq<Pred>, rows: seq<Row>)
    ensures multiset(Filter(ps, rows)) <= multiset(rows)
  {
    if rows != [] {
      FilterPart(ps, rows[1..]);
      assert rows == [rows[0]] + rows[1..];
    }
  }

  lemma WholePart(table: Table, q: Core, c: Column, ks: set<int>, columns: seq<Column>)
    requires NoRepeats(ScanRows(table.rows, columns))
    ensures NoRepeats(Whole(table, q, c, ks, columns))
  {
    var core := Traverse(Where(Unlimited(q), ColumnIn(c, ks)));
    var part, whole := Fetch(table.rows, core), Whole(table, q, c, ks, columns);
    FilterPart(core.predicates, table.rows);
    forall i, j | 0 <= i < j < |whole| ensures whole[i] != whole[j] {
      var a, b := PlacesInWhole(part, table.rows, i, j);
      assert ScanRows(table.rows, columns)[a] != ScanRows(table.rows, columns)[b];
    }
  }

  lemma KeyedRows(rows: seq<Row>, columns: seq<Column>)
    requires PrimaryKey(rows) && ID in columns
    ensures NoRepeats(ScanRows(rows, columns))
  {
    forall i, j | 0 <= i < j < |rows| ensures Scan(rows[i], columns) != Scan(rows[j], columns) {
      assert KeyOf(Scan(rows[i], columns), ID) != KeyOf(Scan(rows[j], columns), ID);
    }
  }

  lemma KeyedOwners(table: Table, q: Core, ks: set<int>)
    requires PrimaryKey(table.rows)
    ensures NoRepeats(Owners(table, q, ID, ks))
  {
    FetchKeys(table.rows, Traverse(Where(Unlimited(q), ColumnIn(ID, ks))));
  }

  // ---------------------------------------------------------------- the leaf edges

  lemma LeafAllIs(table: Table, q: Core, columns: seq<Column>)
    requires LeafAll(table, q, columns).Ok?
    ensures LeafAll(table, q, columns) == Ok(LeafRowsOf(table, q, columns))
  {
  }

  /** With every key set, the zero defaults of the entity fields play no role. */
  lemma LeafKeys(table: Table, q: Core, c: Column, ks: set<int>, columns: seq<Column>)
    requires c in columns
    ensures var rows := LeafRowsOf(table, Where(q, ColumnIn(c, ks)), columns);
            Fks(rows, c) == Keys(rows, c) && (c == ID ==> IdKeys(rows) == Keys(rows, ID))
  {
    var core := Traverse(Where(q, ColumnIn(c, ks)));
    var rows := Fetch(table.rows, core);
    forall i | 0 <= i < |rows| ensures KeyOf(rows[i], c).Some? {
      FetchHolds(table.rows, core, i);
      WhereHolds(q, c, ks, rows[i]);
    }
  }

  lemma OwnersField(table: Table, q: Core, c: Column, ks: set<int>, f: Column)
    ensures Owners(table, WithField(q, f), c, ks) == Owners(table, q, c, ks)
  {
  }

  /** The IDs of the base nodes are the keys asked for. */
  lemma ServedNodes(keys: seq<Option<int>>, limit: Option<nat>, offset: Option<nat>, base: seq<Row>)
    requires Keyed(keys) && Known(keys, KeySet(IdKeys(base)))
    ensures (forall i | 0 <= i < |base| :: Served(keys, limit, offset, IdOf(base[i]))) <==> Fits(keys, limit, offset)
  {
    var ids := KeySet(IdKeys(base));
    ServedAmong(keys, limit, offset, ids);
    KeysExact(IdKeys(base), |base|);
    forall i | 0 <= i < |base| ensures IdOf(base[i]) in ids { InIds(base, i); }
    forall k | k in ids ensures exists i :: 0 <= i < |base| && IdOf(base[i]) == k {
      var i :| 0 <= i < |base| && IdKeys(base)[i] == Some(k);
      assert IdOf(base[i]) == k;
    }
  }

  /** The same for foreign keys of the base nodes. */
  lemma ServedKeys(keys: seq<Option<int>>, limit: Option<nat>, offset: Option<nat>, base: seq<Row>, c: Column)
    requires Keyed(keys) && Known(keys, KeySet(Keys(base, c)))
    ensures (forall i | 0 <= i < |base| && KeyOf(base[i], c).Some? ::
              Served(keys, limit, offset, KeyOf(base[i], c).value)) <==>
              Fits(keys, limit, offset)
  {
    var ks := KeySet(Keys(base, c));
    ServedAmong(keys, limit, offset, ks);
    KeysExact(Keys(base, c), |base|);
    forall i | 0 <= i < |base| && KeyOf(base[i], c).Some? ensures KeyOf(base[i], c).value in ks { InKeys(base, c, i); }
    forall k | k in ks ensures exists i :: 0 <= i < |base| && KeyOf(base[i], c) == Some(k) {
      var i :| 0 <= i < |base| && Keys(base, c)[i] == Some(k);
      assert KeyOf(base[i], c) == Some(k);
    }
  }

  /** Node f gets from the batch the usage logs of its own sub-query exactly if its ID is served. */
  lemma LogsOf(db: Store, q: Core, base: seq<Row>, i: nat)
    requires db.Valid() && UsageLogRows(db, q, base).Ok? && i < |base|
    requires OneSided(q.limit, q.offset) || PrimaryKey(db.usageLogs.rows)
    ensures OwnedRows(UsageLogRows(db, q, base).value, IdOf(base[i])) == OwnUsageLogs(db, q, base[i]) <==>
              Served(Owners(db.usageLogs, q, AccountID, KeySet(IdKeys(base))), q.limit, q.offset, IdOf(base[i]))
  {
    var q', ids := WithField(q, AccountID), KeySet(IdKeys(base));
    var columns := IdColumns(q'.fields, db.usageLogs.columns);
    LeafAllIs(db.usageLogs, Where(q', ColumnIn(AccountID, ids)), columns);
    InIds(base, i);
    if PrimaryKey(db.usageLogs.rows) {
      KeyedRows(db.usageLogs.rows, columns);
      WholePart(db.usageLogs, q', AccountID, ids, columns);
    }
    LeafIff(db.usageLogs, q', AccountID, ids, IdOf(base[i]), columns);
    LeafKeys(db.usageLogs, q', AccountID, ids, columns);
    OwnersField(db.usageLogs, q, AccountID, ids, AccountID);
  }

  /** Usage logs: every node gets what its own sub-query returns, exactly if the batch fits. */
  lemma LogsIff(db: Store, q: Core, base: seq<Row>)
    requires db.Valid() && UsageLogRows(db, q, base).Ok?
    requires OneSided(q.limit, q.offset) || PrimaryKey(db.usageLogs.rows)
    ensures (forall i | 0 <= i < |base| ::
               OwnedRows(UsageLogRows(db, q, base).value, IdOf(base[i])) == OwnUsageLogs(db, q, base[i])) <==>
              FitsEdge(db.usageLogs, q, AccountID, KeySet(IdKeys(base)))
  {
    var owners := Owners(db.usageLogs, q, AccountID, KeySet(IdKeys(base)));
    OwnersKnown(db.usageLogs, q, AccountID, KeySet(IdKeys(base)));
    ServedNodes(owners, q.limit, q.offset, base);
    forall i | 0 <= i < |base| ensures
      OwnedRows(UsageLogRows(db, q, base).value, IdOf(base[i])) == OwnUsageLogs(db, q, base[i]) <==>
        Served(owners, q.limit, q.offset, IdOf(base[i]))
    {
      LogsOf(db, q, base, i);
    }
  }

  lemma AccountGroupsOf(db: Store, q: Core, base: seq<Row>, i: nat)
    requires db.Valid() && AccountGroupRows(db, q, base).Ok? && i < |base|
    requires OneSided(q.limit, q.offset) || NoRepeats(ScannedAccountGroups(db, q))
    ensures OwnedRows(AccountGroupRows(db, q, base).value, IdOf(base[i])) == OwnAccountGroups(db, q, base[i]) <==>
              Served(Owners(db.accountGroups, q, AccountID, KeySet(IdKeys(base))), q.limit, q.offset, IdOf(base[i]))
  {
    var q', ids := WithField(q, AccountID), KeySet(IdKeys(base));
    var columns := PlainColumns(q'.fields, db.accountGroups.columns);
    LeafAllIs(db.accountGroups, Where(q', ColumnIn(AccountID, ids)), columns);
    InIds(base, i);
    if !OneSided(q.limit, q.offset) {
      WholePart(db.accountGroups, q', AccountID, ids, columns);
    }
    LeafIff(db.accountGroups, q', AccountID, ids, IdOf(base[i]), columns);
    LeafKeys(db.accountGroups, q', AccountID, ids, columns);
    OwnersField(db.accountGroups, q, AccountID, ids, AccountID);
  }

  /** Account groups: the same. */
  lemma AccountGroupsIff(db: Store, q: Core, base: seq<Row>)
    requires db.Valid() && AccountGroupRows(db, q, base).Ok?
    requires OneSided(q.limit, q.offset) || NoRepeats(ScannedAccountGroups(db, q))
    ensures (forall i | 0 <= i < |base| ::
               OwnedRows(AccountGroupRows(db, q, base).value, IdOf(base[i])) == OwnAccountGroups(db, q, base[i])) <==>
              FitsEdge(db.accountGroups, q, AccountID, KeySet(IdKeys(base)))
  {
    var owners := Owners(db.accountGroups, q, AccountID, KeySet(IdKeys(base)));
    OwnersKnown(db.accountGroups, q, AccountID, KeySet(IdKeys(base)));
    ServedNodes(owners, q.limit, q.offset, base);
    forall i | 0 <= i < |base| ensures
      OwnedRows(AccountGroupRows(db, q, base).value, IdOf(base[i])) == OwnAccountGroups(db, q, base[i]) <==>
        Served(owners, q.limit, q.offset, IdOf(base[i]))
    {
      AccountGroupsOf(db, q, base, i);
    }
  }

  lemma ProxyOfNode(db: Store, q: Core, base: seq<Row>, i: nat)
    requires db.Valid() && ProxyRows(db, q, base).Ok? && i < |base| && KeyOf(base[i], ProxyID).Some?
    ensures ProxyOf(ProxyRows(db, q, base).value, base[i]) == OwnProxy(db, q, base[i]) <==>
              Served(Owners(db.proxies, q, ID, KeySet(Keys(base, ProxyID))), q.limit, q.offset,
                     KeyOf(base[i], ProxyID).value)
  {
    var fks, fk := KeySet(Keys(base, ProxyID)), KeyOf(base[i], ProxyID).value;
    var columns := IdColumns(q.fields, db.proxies.columns);
    InKeys(base, ProxyID, i);
    LeafAllIs(db.proxies, Where(q, ColumnIn(ID, fks)), columns);
    KeyedOwners(db.proxies, q, fks);
    LastIff(db.proxies, q, ID, fks, fk, columns);
    LeafKeys(db.proxies, q, ID, fks, columns);
  }

  /** Proxies: a window on the sub-query is per node exactly if the batch of proxies fits. */
  lemma ProxyIff(db: Store, q: Core, base: seq<Row>)
    requires db.Valid() && ProxyRows(db, q, base).Ok?
    ensures (forall i | 0 <= i < |base| ::
              ProxyOf(ProxyRows(db, q, base).value, base[i]) == OwnProxy(db, q, base[i])) <==>
              FitsEdge(db.proxies, q, ID, KeySet(Keys(base, ProxyID)))
  {
    var owners := Owners(db.proxies, q, ID, KeySet(Keys(base, ProxyID)));
    OwnersKnown(db.proxies, q, ID, KeySet(Keys(base, ProxyID)));
    ServedKeys(owners, q.limit, q.offset, base, ProxyID);
    forall i | 0 <= i < |base| ensures
      ProxyOf(ProxyRows(db, q, base).value, base[i]) == OwnProxy(db, q, base[i]) <==>
        (KeyOf(base[i], ProxyID).Some? ==> Served(owners, q.limit, q.offset, KeyOf(base[i], ProxyID).value))
    {
      if KeyOf(base[i], ProxyID).Some? {
        ProxyOfNode(db, q, base, i);
      }
    }
  }
}
