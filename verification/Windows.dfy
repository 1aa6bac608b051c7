/** LIMIT and OFFSET on a batch of rows with owners: when cutting the whole batch gives every owner
    what cutting its own rows would give. */
module Windows {
  import opened Schema
  import opened Store
  import opened EagerSpec

  // ---------------------------------------------------------------- windows as intervals

  function Skip(offset: Option<nat>): nat {
    if offset.Some? then offset.value else 0
  }

  predicate Bounded(limit: Option<nat>) {
    limit.Some? && limit.value > 0
  }

  /** At most one side of a list is cut off. */
  predicate OneSided(limit: Option<nat>, offset: Option<nat>) {
    !Bounded(limit) || Skip(offset) == 0
  }

  /** The window of a list of n rows starts here ... */
  function Lo(n: nat, offset: Option<nat>): (lo: nat)
    ensures lo <= n
  {
    if Skip(offset) <= n then Skip(offset) else n
  }

  /** ... and ends here. */
  function Hi(n: nat, limit: Option<nat>, offset: Option<nat>): (hi: nat)
    ensures Lo(n, offset) <= hi <= n
  {
    var lo := Lo(n, offset);
    if Bounded(limit) && limit.value < n - lo then lo + limit.value else n
  }

  lemma WindowIs<T>(s: seq<T>, limit: Option<nat>, offset: Option<nat>)
    ensures Window(s, limit, offset) == s[Lo(|s|, offset)..Hi(|s|, limit, offset)]
  {
    var lo, n := Lo(|s|, offset), |s|;
    assert s[lo..] == s[lo..n];
    if Bounded(limit) && limit.value < n - lo {
      assert s[lo..][..limit.value] == s[lo..lo + limit.value];
    }
  }

  // ---------------------------------------------------------------- the rows of one owner

  /** The positions in [lo, hi) that hold key k. */
  function Between(keys: seq<Option<int>>, lo: nat, hi: nat, k: int): (idx: seq<nat>)
    requires lo <= hi <= |keys|
    ensures forall j | 0 <= j < |idx| :: lo <= idx[j] < hi && keys[idx[j]] == Some(k)
    ensures |idx| <= hi - lo
    decreases hi
  {
    if hi == lo then []
    else
      var before := Between(keys, lo, hi - 1, k);
      if keys[hi - 1] == Some(k) then before + [hi - 1] else before
  }

  lemma {:induction false} BetweenAll(keys: seq<Option<int>>, lo: nat, hi: nat, k: int, i: nat)
    requires lo <= i < hi <= |keys| && keys[i] == Some(k)
    ensures i in Between(keys, lo, hi, k)
    decreases hi
  {
    if i < hi - 1 {
      BetweenAll(keys, lo, hi - 1, k, i);
    }
  }

  ghost predicate Ascending(idx: seq<nat>) {
    forall j, l | 0 <= j < l < |idx| :: idx[j] < idx[l]
  }

  lemma {:induction false} BetweenAscends(keys: seq<Option<int>>, lo: nat, hi: nat, k: int)
    requires lo <= hi <= |keys|
    ensures Ascending(Between(keys, lo, hi, k))
    decreases hi
  {
    if lo < hi {
      BetweenAscends(keys, lo, hi - 1, k);
    }
  }

  /** All of the interval belongs to k exactly when k has as many positions in it as it is long. */
  lemma {:induction false} BetweenFull(keys: seq<Option<int>>, lo: nat, hi: nat, k: int)
    requires lo <= hi <= |keys|
    ensures |Between(keys, lo, hi, k)| == hi - lo <==> forall i | lo <= i < hi :: keys[i] == Some(k)
    decreases hi
  {
    if lo < hi {
      BetweenFull(keys, lo, hi - 1, k);
    }
  }

  lemma {:induction false} BetweenSplit(keys: seq<Option<int>>, lo: nat, mid: nat, hi: nat, k: int)
    requires lo <= mid <= hi <= |keys|
    ensures Between(keys, lo, hi, k) == Between(keys, lo, mid, k) + Between(keys, mid, hi, k)
    decreases hi
  {
    if mid < hi {
      BetweenSplit(keys, lo, mid, hi - 1, k);
    }
  }

  lemma {:induction false} HitsAreBetween(keys: seq<Option<int>>, n: nat, k: int)
    requires n <= |keys|
    ensures HitsTo(keys, n, k) == Between(keys, 0, n, k)
  {
    if n > 0 {
      HitsAreBetween(keys, n - 1, k);
    }
  }

  /** The positions of k in a slice, moved back to the whole list. */
  lemma {:induction false} SliceHits(keys: seq<Option<int>>, lo: nat, hi: nat, n: nat, k: int)
    requires lo <= hi <= |keys| && n <= hi - lo
    ensures var idx, all := HitsTo(keys[lo..hi], n, k), Between(keys, lo, lo + n, k);
            |idx| == |all| && forall j | 0 <= j < |idx| :: all[j] == lo + idx[j]
  {
    if n > 0 {
      SliceHits(keys, lo, hi, n - 1, k);
    }
  }

  lemma PickSlice<T>(s: seq<T>, keys: seq<Option<int>>, lo: nat, hi: nat, k: int)
    requires |keys| == |s| && lo <= hi <= |s|
    ensures Pick(s[lo..hi], Hits(keys[lo..hi], k)) == Pick(s, Between(keys, lo, hi, k))
  {
    SliceHits(keys, lo, hi, hi - lo, k);
  }

  // ---------------------------------------------------------------- one owner

  /** An owner with a rows before the window, b inside and c behind it gets its own window. */
  predicate Fair(a: nat, b: nat, c: nat, limit: Option<nat>, offset: Option<nat>) {
    if b == 0 then a + c <= Skip(offset)
    else a == Skip(offset) && (c == 0 || (Bounded(limit) && b == limit.value))
  }

  lemma CutSuffices(a: seq<nat>, b: seq<nat>, c: seq<nat>, limit: Option<nat>, offset: Option<nat>)
    requires Bounded(limit) ==> |b| <= limit.value
    requires Fair(|a|, |b|, |c|, limit, offset)
    ensures b == Window(a + b + c, limit, offset)
  {
    WindowIs(a + b + c, limit, offset);
  }

  lemma CutNeeds(a: seq<nat>, b: seq<nat>, c: seq<nat>, limit: Option<nat>, offset: Option<nat>)
    requires Ascending(a + b + c) && b == Window(a + b + c, limit, offset)
    ensures Fair(|a|, |b|, |c|, limit, offset)
  {
    var s := a + b + c;
    WindowIs(s, limit, offset);
    var lo, hi := Lo(|s|, offset), Hi(|s|, limit, offset);
    if b != [] {
      assert s[|a|] == b[0] == s[lo];
      assert lo == |a|;
    }
  }

  lemma CutExact(a: seq<nat>, b: seq<nat>, c: seq<nat>, limit: Option<nat>, offset: Option<nat>)
    requires Ascending(a + b + c) && (Bounded(limit) ==> |b| <= limit.value)
    ensures b == Window(a + b + c, limit, offset) <==> Fair(|a|, |b|, |c|, limit, offset)
  {
    if Fair(|a|, |b|, |c|, limit, offset) { CutSuffices(a, b, c, limit, offset); }
    if b == Window(a + b + c, limit, offset) { CutNeeds(a, b, c, limit, offset); }
  }

  /** Cutting on one side only, the lengths decide. */
  lemma CutLength(a: seq<nat>, b: seq<nat>, c: seq<nat>, limit: Option<nat>, offset: Option<nat>)
    requires (Skip(offset) == 0 && a == []) || (!Bounded(limit) && c == [])
    requires Bounded(limit) ==> |b| <= limit.value
    requires |b| == |Window(a + b + c, limit, offset)|
    ensures Fair(|a|, |b|, |c|, limit, offset)
  {
    WindowIs(a + b + c, limit, offset);
  }

  // ---------------------------------------------------------------- all owners

  ghost predicate One(keys: seq<Option<int>>) {
    forall i, j | 0 <= i < |keys| && 0 <= j < |keys| :: keys[i] == keys[j]
  }

  /** Everything up to the end of the window has one owner, and no other owner has more rows than
      are skipped. */
  ghost predicate OneInFront(keys: seq<Option<int>>, hi: nat, skip: nat)
    requires 0 < hi <= |keys|
  {
    && (forall i | 0 <= i < hi :: keys[i] == keys[0])
    && (forall k | Some(k) != keys[0] :: |Hits(keys, k)| <= skip)
  }

  /** The exact condition under which a window on the whole batch is a window per owner.  With LIMIT
      alone: nothing is cut off, or there is one owner.  With OFFSET: everything is skipped, or one
      owner fills the batch up to the end of the window and the others have nothing left. */
  ghost predicate Fits(keys: seq<Option<int>>, limit: Option<nat>, offset: Option<nat>) {
    var n := |keys|;
    var hi := Hi(n, limit, offset);
    if Skip(offset) == 0 then hi == n || One(keys)
    else n <= Skip(offset) || OneInFront(keys, hi, Skip(offset))
  }

  /** Owner k gets its own window. */
  ghost predicate Served(keys: seq<Option<int>>, limit: Option<nat>, offset: Option<nat>, k: int) {
    var n := |keys|;
    Between(keys, Lo(n, offset), Hi(n, limit, offset), k) == Window(Hits(keys, k), limit, offset)
  }

  function CountIn(keys: seq<Option<int>>, lo: nat, hi: nat, k: int): nat
    requires lo <= hi <= |keys|
  {
    |Between(keys, lo, hi, k)|
  }

  ghost predicate FairFor(keys: seq<Option<int>>, limit: Option<nat>, offset: Option<nat>, k: int) {
    var n := |keys|;
    var lo, hi := Lo(n, offset), Hi(n, limit, offset);
    Fair(CountIn(keys, 0, lo, k), CountIn(keys, lo, hi, k), CountIn(keys, hi, n, k), limit, offset)
  }

  lemma HitsInThree(keys: seq<Option<int>>, lo: nat, hi: nat, k: int)
    requires lo <= hi <= |keys|
    ensures Hits(keys, k) == Between(keys, 0, lo, k) + Between(keys, lo, hi, k) + Between(keys, hi, |keys|, k)
    ensures Ascending(Hits(keys, k))
  {
    var n := |keys|;
    HitsAreBetween(keys, n, k);
    BetweenSplit(keys, 0, hi, n, k);
    BetweenSplit(keys, 0, lo, hi, k);
    BetweenAscends(keys, 0, n, k);
  }

  lemma ServedIffFair(keys: seq<Option<int>>, limit: Option<nat>, offset: Option<nat>, k: int)
    ensures Served(keys, limit, offset, k) <==> FairFor(keys, limit, offset, k)
  {
    var n := |keys|;
    var lo, hi := Lo(n, offset), Hi(n, limit, offset);
    HitsInThree(keys, lo, hi, k);
    CutExact(Between(keys, 0, lo, k), Between(keys, lo, hi, k), Between(keys, hi, n, k), limit, offset);
  }

  /** Some key is held at position i. */
  ghost predicate Keyed(keys: seq<Option<int>>) {
    forall i | 0 <= i < |keys| :: keys[i].Some?
  }

  lemma CountPositive(keys: seq<Option<int>>, lo: nat, hi: nat, k: int, i: nat)
    requires lo <= i < hi <= |keys| && keys[i] == Some(k)
    ensures CountIn(keys, lo, hi, k) > 0
  {
    BetweenAll(keys, lo, hi, k, i);
  }

  lemma {:induction false} CountNone(keys: seq<Option<int>>, lo: nat, hi: nat, k: int)
    requires lo <= hi <= |keys| && forall i | lo <= i < hi :: keys[i] != Some(k)
    ensures CountIn(keys, lo, hi, k) == 0
    decreases hi
  {
    if lo < hi {
      CountNone(keys, lo, hi - 1, k);
    }
  }

  /** LIMIT alone, one direction: if a row is cut off, its owner fills the window. */
  lemma CutOwnerFills(keys: seq<Option<int>>, limit: Option<nat>, offset: Option<nat>, i: nat)
    requires Skip(offset) == 0 && Hi(|keys|, limit, offset) <= i < |keys| && keys[i].Some?
    requires FairFor(keys, limit, offset, keys[i].value)
    ensures forall j | 0 <= j < Hi(|keys|, limit, offset) :: keys[j] == keys[i]
  {
    var hi, k := Hi(|keys|, limit, offset), keys[i].value;
    CountPositive(keys, hi, |keys|, k, i);
    BetweenFull(keys, 0, hi, k);
  }

  lemma LimitNeeds(keys: seq<Option<int>>, limit: Option<nat>, offset: Option<nat>)
    requires Keyed(keys) && Skip(offset) == 0 && Hi(|keys|, limit, offset) < |keys|
    requires forall k: int :: FairFor(keys, limit, offset, k)
    ensures One(keys)
  {
    var hi := Hi(|keys|, limit, offset);
    forall i | 0 <= i < |keys| ensures keys[i] == keys[0] {
      if hi <= i {
        CutOwnerFills(keys, limit, offset, i);
      } else {
        CutOwnerFills(keys, limit, offset, hi);
      }
    }
  }

  /** A row inside the window belongs to the owner of everything that is skipped. */
  lemma SkippedBelong(keys: seq<Option<int>>, limit: Option<nat>, offset: Option<nat>, i: nat)
    requires Skip(offset) < |keys| && Skip(offset) <= i < Hi(|keys|, limit, offset) && keys[i].Some?
    requires FairFor(keys, limit, offset, keys[i].value)
    ensures forall j | 0 <= j < Skip(offset) :: keys[j] == keys[i]
  {
    var lo, hi, k := Skip(offset), Hi(|keys|, limit, offset), keys[i].value;
    CountPositive(keys, lo, hi, k, i);
    BetweenFull(keys, 0, lo, k);
  }

  /** OFFSET, one direction. */
  lemma OffsetNeeds(keys: seq<Option<int>>, limit: Option<nat>, offset: Option<nat>)
    requires Keyed(keys) && 0 < Skip(offset) < |keys|
    requires forall k: int :: FairFor(keys, limit, offset, k)
    ensures OneInFront(keys, Hi(|keys|, limit, offset), Skip(offset))
  {
    var n, lo, hi := |keys|, Skip(offset), Hi(|keys|, limit, offset);
    forall i | lo <= i < hi ensures keys[i] == keys[0] {
      SkippedBelong(keys, limit, offset, i);
    }
    SkippedBelong(keys, limit, offset, lo);
    forall k | Some(k) != keys[0] ensures |Hits(keys, k)| <= lo {
      CountNone(keys, lo, hi, k);
      assert FairFor(keys, limit, offset, k);
      HitsInThree(keys, lo, hi, k);
    }
  }

  lemma LimitSuffices(keys: seq<Option<int>>, limit: Option<nat>, offset: Option<nat>, k: int)
    requires Skip(offset) == 0 && (Hi(|keys|, limit, offset) == |keys| || One(keys))
    ensures FairFor(keys, limit, offset, k)
  {
    var n, hi := |keys|, Hi(|keys|, limit, offset);
    if hi < n {
      if keys[0] == Some(k) {
        BetweenFull(keys, 0, hi, k);
      } else {
        CountNone(keys, 0, hi, k);
        CountNone(keys, hi, n, k);
      }
    }
  }

  lemma OffsetSuffices(keys: seq<Option<int>>, limit: Option<nat>, offset: Option<nat>, k: int)
    requires 0 < Skip(offset) < |keys| && OneInFront(keys, Hi(|keys|, limit, offset), Skip(offset))
    ensures FairFor(keys, limit, offset, k)
  {
    var n, lo, hi := |keys|, Skip(offset), Hi(|keys|, limit, offset);
    if keys[0] == Some(k) {
      BetweenFull(keys, 0, lo, k);
      BetweenFull(keys, lo, hi, k);
    } else {
      CountNone(keys, lo, hi, k);
      HitsInThree(keys, lo, hi, k);
    }
  }

  /** The condition is exact: every owner gets its own window iff the batch fits. */
  lemma FitsIff(keys: seq<Option<int>>, limit: Option<nat>, offset: Option<nat>)
    requires Keyed(keys)
    ensures (forall k: int :: Served(keys, limit, offset, k)) <==> Fits(keys, limit, offset)
  {
    var n, hi := |keys|, Hi(|keys|, limit, offset);
    forall k: int ensures Served(keys, limit, offset, k) <==> FairFor(keys, limit, offset, k) {
      ServedIffFair(keys, limit, offset, k);
    }
    if Fits(keys, limit, offset) {
      forall k: int ensures FairFor(keys, limit, offset, k) {
        if Skip(offset) == 0 {
          LimitSuffices(keys, limit, offset, k);
        } else if Skip(offset) < n {
          OffsetSuffices(keys, limit, offset, k);
        }
      }
    }
    if forall k: int :: FairFor(keys, limit, offset, k) {
      if Skip(offset) > 0 && n > Skip(offset) {
        OffsetNeeds(keys, limit, offset);
      } else if Skip(offset) == 0 && hi < n {
        LimitNeeds(keys, limit, offset);
      }
    }
  }

  lemma UnwindowedFits(keys: seq<Option<int>>, limit: Option<nat>, offset: Option<nat>)
    requires !Bounded(limit) && Skip(offset) == 0
    ensures Fits(keys, limit, offset)
  {
  }
}
