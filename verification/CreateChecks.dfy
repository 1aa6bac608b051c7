/** AccountCreate.defaults and AccountCreate.check as a specification, and when dropping the error
    of defaults in a bulk save does harm. */
module CreateChecks {
  import opened Schema

  // ---------------------------------------------------------------- defaults

  /** The generated defaults.  The four functions may be uninitialised; what they return (a time,
      an empty document) is given.  The others are constants. */
  datatype Defaults = Defaults(
    createdAt: Option<Cell>, updatedAt: Option<Cell>, credentials: Option<Cell>, extra: Option<Cell>,
    concurrency: Cell, priority: Cell, rateMultiplier: Cell, status: Cell,
    autoPauseOnExpired: Cell, schedulable: Cell, quotaDimension: Cell)

  /** The default of column c, if there is one. */
  function DefaultOf(d: Defaults, c: Column): Option<Cell> {
    match c
    case CreatedAt => d.createdAt
    case UpdatedAt => d.updatedAt
    case Credentials => d.credentials
    case Extra => d.extra
    case Concurrency => Some(d.concurrency)
    case Priority => Some(d.priority)
    case RateMultiplier => Some(d.rateMultiplier)
    case Status => Some(d.status)
    case AutoPauseOnExpired => Some(d.autoPauseOnExpired)
    case Schedulable => Some(d.schedulable)
    case QuotaDimension => Some(d.quotaDimension)
    case _ => None
  }

  const DefaultCount: nat := 11

  /** The place of a column in the order in which defaults are filled in. */
  function DefaultRank(c: Column): nat {
    match c
    case CreatedAt => 0
    case UpdatedAt => 1
    case Credentials => 2
    case Extra => 3
    case Concurrency => 4
    case Priority => 5
    case RateMultiplier => 6
    case Status => 7
    case AutoPauseOnExpired => 8
    case Schedulable => 9
    case QuotaDimension => 10
    case _ => 11
  }

  function DefaultColumn(n: nat): (c: Column)
    requires n < DefaultCount
    ensures DefaultRank(c) == n
  {
    match n
    case 0 => CreatedAt
    case 1 => UpdatedAt
    case 2 => Credentials
    case 3 => Extra
    case 4 => Concurrency
    case 5 => Priority
    case 6 => RateMultiplier
    case 7 => Status
    case 8 => AutoPauseOnExpired
    case 9 => Schedulable
    case _ => QuotaDimension
  }

  /** Column c has to be filled in, and there is nothing to fill it with. */
  predicate Lacks(d: Defaults, f: Row, c: Column) {
    DefaultRank(c) < DefaultCount && c !in f && DefaultOf(d, c).None?
  }

  /** g is f with every unset column among the first n given its default. */
  ghost predicate Filled(d: Defaults, f: Row, n: nat, g: Row) {
    && (forall c :: c in g <==> c in f || DefaultRank(c) < n)
    && (forall c | c in f :: c in g && g[c] == f[c])
    && (forall c | c !in f && c in g :: Some(g[c]) == DefaultOf(d, c))
  }

  /** Filling stops at the first column that lacks a default: err names it. */
  ghost predicate Stops(d: Defaults, f: Row, err: Option<Column>) {
    match err
    case None => forall c :: !Lacks(d, f, c)
    case Some(m) => Lacks(d, f, m) && forall c | DefaultRank(c) < DefaultRank(m) :: !Lacks(d, f, c)
  }

  /** How many columns are dealt with when filling ends with err. */
  function Extent(err: Option<Column>): nat {
    if err.Some? then DefaultRank(err.value) else DefaultCount
  }

  lemma RankOfDefault(c: Column)
    ensures DefaultRank(c) < DefaultCount ==> DefaultColumn(DefaultRank(c)) == c
  {
  }

  /** Field c set to v, unless it has a value already. */
  function Put(f: Row, c: Column, v: Option<Cell>): Row
    requires c in f || v.Some?
  {
    if c in f then f else f[c := v.value]
  }

  /** What defaults does to the fields of a mutation from the n-th column on: the new fields, and
      the column at which it gave up, if it did. */
  function FillFrom(d: Defaults, f: Row, n: nat): (r: (Row, Option<Column>))
    requires n <= DefaultCount
    decreases DefaultCount - n
  {
    if n == DefaultCount then (f, None)
    else
      var c := DefaultColumn(n);
      if c !in f && DefaultOf(d, c).None? then (f, Some(c))
      else FillFrom(d, Put(f, c, DefaultOf(d, c)), n + 1)
  }

  function WithDefaults(d: Defaults, f: Row): (Row, Option<Column>) {
    FillFrom(d, f, 0)
  }

  lemma {:induction false} FillFromIs(d: Defaults, f: Row, n: nat, g: Row)
    requires n <= DefaultCount && Filled(d, f, n, g)
    requires forall c | DefaultRank(c) < n :: !Lacks(d, f, c)
    ensures Stops(d, f, FillFrom(d, g, n).1)
    ensures Filled(d, f, Extent(FillFrom(d, g, n).1), FillFrom(d, g, n).0)
    decreases DefaultCount - n
  {
    if n < DefaultCount {
      var c := DefaultColumn(n);
      forall e | DefaultRank(e) == n ensures e == c { RankOfDefault(e); }
      if c in g || DefaultOf(d, c).Some? {
        FillFromIs(d, f, n + 1, Put(g, c, DefaultOf(d, c)));
      }
    }
  }

  /** The defaults, without the steps: the error names the first column that is unset and has no
      default; every unset column before it, and no other, gets its default; set ones stay. */
  lemma WithDefaultsIs(d: Defaults, f: Row)
    ensures Stops(d, f, WithDefaults(d, f).1)
    ensures Filled(d, f, Extent(WithDefaults(d, f).1), WithDefaults(d, f).0)
  {
    FillFromIs(d, f, 0, f);
  }

  // ---------------------------------------------------------------- check

  /** The field validators; a true answer means the value is accepted. */
  datatype Validators = Validators(
    name: Cell -> bool, platform: Cell -> bool, accountType: Cell -> bool, status: Cell -> bool,
    sessionWindowStatus: Cell -> bool, quotaDimension: Cell -> bool)

  const CheckCount: nat := 15

  /** The place of a column in the order of the checks. */
  function CheckRank(c: Column): nat {
    match c
    case CreatedAt => 0
    case UpdatedAt => 1
    case Name => 2
    case Platform => 3
    case Type => 4
    case Credentials => 5
    case Extra => 6
    case Concurrency => 7
    case Priority => 8
    case RateMultiplier => 9
    case Status => 10
    case AutoPauseOnExpired => 11
    case Schedulable => 12
    case SessionWindowStatus => 13
    case QuotaDimension => 14
    case _ => 15
  }

  function CheckColumn(n: nat): (c: Column)
    requires n < CheckCount
    ensures CheckRank(c) == n
  {
    match n
    case 0 => CreatedAt
    case 1 => UpdatedAt
    case 2 => Name
    case 3 => Platform
    case 4 => Type
    case 5 => Credentials
    case 6 => Extra
    case 7 => Concurrency
    case 8 => Priority
    case 9 => RateMultiplier
    case 10 => Status
    case 11 => AutoPauseOnExpired
    case 12 => Schedulable
    case 13 => SessionWindowStatus
    case _ => QuotaDimension
  }

  lemma RankOfCheck(c: Column)
    ensures CheckRank(c) < CheckCount ==> CheckColumn(CheckRank(c)) == c
  {
  }

  predicate Required(c: Column) {
    CheckRank(c) < CheckCount && c != SessionWindowStatus
  }

  /** What the validator of column c says; a column without one accepts everything. */
  predicate Accepts(v: Validators, c: Column, x: Cell) {
    match c
    case Name => v.name(x)
    case Platform => v.platform(x)
    case Type => v.accountType(x)
    case Status => v.status(x)
    case SessionWindowStatus => v.sessionWindowStatus(x)
    case QuotaDimension => v.quotaDimension(x)
    case _ => true
  }

  predicate Bad(v: Validators, f: Row, c: Column) {
    if c in f then !Accepts(v, c, f[c]) else Required(c)
  }

  /** The column check complains about, from the n-th check on. */
  function CheckFrom(v: Validators, f: Row, n: nat): (r: Option<Column>)
    requires n <= CheckCount
    decreases CheckCount - n
  {
    if n == CheckCount then None
    else if Bad(v, f, CheckColumn(n)) then Some(CheckColumn(n))
    else CheckFrom(v, f, n + 1)
  }

  function Check(v: Validators, f: Row): Option<Column> {
    CheckFrom(v, f, 0)
  }

  lemma {:induction false} CheckFromIs(v: Validators, f: Row, n: nat)
    requires n <= CheckCount
    requires forall c | CheckRank(c) < n :: !Bad(v, f, c)
    ensures var r := CheckFrom(v, f, n);
            match r
            case None => forall c | CheckRank(c) < CheckCount :: !Bad(v, f, c)
            case Some(b) => CheckRank(b) < CheckCount && Bad(v, f,
                                                             b) && forall c | CheckRank(c) < CheckRank(b) :: !Bad(v, f,
                                                                 c)
    decreases CheckCount - n
  {
    if n < CheckCount {
      var b := CheckColumn(n);
      forall e | CheckRank(e) == n ensures e == b { RankOfCheck(e); }
      if !Bad(v, f, b) {
        CheckFromIs(v, f, n + 1);
      }
    }
  }

  /** check accepts exactly the mutations with every required field set and every validated field
      valid, and otherwise names the first offender in its own order. */
  lemma CheckIs(v: Validators, f: Row)
    ensures Check(v, f).None? <==> forall c :: !Bad(v, f, c)
    ensures Check(v, f).Some? ==>
              && Bad(v, f, Check(v, f).value)
              && forall c | CheckRank(c) < CheckRank(Check(v, f).value) :: !Bad(v, f, c)
  {
    CheckFromIs(v, f, 0);
    assert forall c :: CheckRank(c) >= CheckCount ==> !Bad(v, f, c);
  }

  /** The columns in the order in which check looks at them. */
  const CheckOrder: seq<Column> := [
    CreatedAt, UpdatedAt, Name, Platform, Type, Credentials, Extra, Concurrency, Priority, RateMultiplier, Status,
    AutoPauseOnExpired, Schedulable, SessionWindowStatus, QuotaDimension]

  /** What check asks, column by column: fourteen columns have to be set, six values have to be valid,
      and that is all. */
  lemma CheckPassesIff(v: Validators, f: Row)
    ensures Check(v, f).None? <==>
              && CreatedAt in f && UpdatedAt in f
              && Name in f && v.name(f[Name])
              && Platform in f && v.platform(f[Platform])
              && Type in f && v.accountType(f[Type])
              && Credentials in f && Extra in f && Concurrency in f && Priority in f && RateMultiplier in f
              && Status in f && v.status(f[Status])
              && AutoPauseOnExpired in f && Schedulable in f
              && (SessionWindowStatus in f ==> v.sessionWindowStatus(f[SessionWindowStatus]))
              && QuotaDimension in f && v.quotaDimension(f[QuotaDimension])
  {
    CheckIs(v, f);
    if Check(v, f).None? {
      BadPlain(v, f);
      BadValidated(v, f);
    } else {
      BadColumn(v, f, Check(v, f).value);
    }
  }

  lemma BadPlain(v: Validators, f: Row)
    requires forall c :: !Bad(v, f, c)
    ensures CreatedAt in f && UpdatedAt in f && Credentials in f && Extra in f && Concurrency in f && Priority in f
    ensures RateMultiplier in f && AutoPauseOnExpired in f && Schedulable in f
  {
    assert !Bad(v, f, CreatedAt) && !Bad(v, f, UpdatedAt) && !Bad(v, f, Credentials) && !Bad(v, f, Extra);
    assert !Bad(v, f, Concurrency) && !Bad(v, f, Priority) && !Bad(v, f, RateMultiplier);
    assert !Bad(v, f, AutoPauseOnExpired) && !Bad(v, f, Schedulable);
  }

  lemma BadValidated(v: Validators, f: Row)
    requires forall c :: !Bad(v, f, c)
    ensures Name in f && v.name(f[Name]) && Platform in f && v.platform(f[Platform])
    ensures Type in f && v.accountType(f[Type]) && Status in f && v.status(f[Status])
    ensures SessionWindowStatus in f ==> v.sessionWindowStatus(f[SessionWindowStatus])
    ensures QuotaDimension in f && v.quotaDimension(f[QuotaDimension])
  {
    assert !Bad(v, f, Name) && !Bad(v, f, Platform) && !Bad(v, f, Type) && !Bad(v, f, Status);
    assert !Bad(v, f, SessionWindowStatus) && !Bad(v, f, QuotaDimension);
  }

  lemma BadColumn(v: Validators, f: Row, c: Column)
    requires Bad(v, f, c)
    ensures c in f ==>
              match c
              case Name => !v.name(f[c])
              case Platform => !v.platform(f[c])
              case Type => !v.accountType(f[c])
              case Status => !v.status(f[c])
              case SessionWindowStatus => !v.sessionWindowStatus(f[c])
              case QuotaDimension => !v.quotaDimension(f[c])
              case _ => false
    ensures c !in f ==>
              match c
              case CreatedAt | UpdatedAt | Name | Platform | Type | Credentials | Extra | Concurrency | Priority
                 | RateMultiplier | Status | AutoPauseOnExpired | Schedulable | QuotaDimension => true
              case _ => false
  {
  }

  /** Column c is missing although it has to be set, or has an invalid value. */
  ghost predicate Faulty(v: Validators, f: Row, c: Column) {
    if c !in f then c in CheckOrder && c != SessionWindowStatus
    else
      || (c == Name && !v.name(f[c])) || (c == Platform && !v.platform(f[c])) || (c == Type && !v.accountType(f[c]))
      || (c == Status && !v.status(f[c])) || (c == SessionWindowStatus && !v.sessionWindowStatus(f[c]))
      || (c == QuotaDimension && !v.quotaDimension(f[c]))
  }

  lemma FaultyIs(v: Validators, f: Row, c: Column)
    ensures Faulty(v, f, c) <==> Bad(v, f, c)
  {
    InCheckOrder(c);
  }

  lemma InCheckOrder(c: Column)
    ensures c in CheckOrder <==> CheckRank(c) < CheckCount
    ensures CheckRank(c) < CheckCount ==> CheckOrder[CheckRank(c)] == c
  {
    forall n | 0 <= n < |CheckOrder| ensures CheckRank(CheckOrder[n]) == n {
      RankInOrder(n);
    }
    if CheckRank(c) < CheckCount {
      RankInOrder(CheckRank(c));
      RankOfCheck(c);
    }
  }

  /** The column named is the first faulty one in the order of the source. */
  lemma CheckNamesFirst(v: Validators, f: Row, n: nat)
    requires n < |CheckOrder| && Faulty(v, f, CheckOrder[n]) && forall m | 0 <= m < n :: !Faulty(v, f, CheckOrder[m])
    ensures Check(v, f) == Some(CheckOrder[n])
  {
    CheckIs(v, f);
    FaultyIs(v, f, CheckOrder[n]);
    RankInOrder(n);
    var c := Check(v, f).value;
    FaultyIs(v, f, c);
    InCheckOrder(c);
    assert CheckOrder[CheckRank(c)] == c;
  }

  lemma RankInOrder(n: nat)
    requires n < |CheckOrder|
    ensures CheckRank(CheckOrder[n]) == n && |CheckOrder| == CheckCount && CheckColumn(n) == CheckOrder[n]
  {
  }

  /** The columns that have a default, in the order in which they are filled in, with their defaults. */
  function DefaultList(d: Defaults): (list: seq<(Column, Cell)>)
    requires d.createdAt.Some? && d.updatedAt.Some? && d.credentials.Some? && d.extra.Some?
    ensures |list| == 11
  {
    [(CreatedAt, d.createdAt.value), (UpdatedAt, d.updatedAt.value), (Credentials, d.credentials.value),
     (Extra, d.extra.value), (Concurrency, d.concurrency), (Priority, d.priority),
     (RateMultiplier, d.rateMultiplier), (Status, d.status), (AutoPauseOnExpired, d.autoPauseOnExpired),
     (Schedulable, d.schedulable), (QuotaDimension, d.quotaDimension)]
  }

  lemma DefaultListed(d: Defaults, n: nat)
    requires d.createdAt.Some? && d.updatedAt.Some? && d.credentials.Some? && d.extra.Some? && n < 11
    ensures DefaultOf(d, DefaultList(d)[n].0) == Some(DefaultList(d)[n].1)
    ensures DefaultRank(DefaultList(d)[n].0) == n && DefaultColumn(n) == DefaultList(d)[n].0
  {
  }

  /** What defaults does as long as it has all its functions: an unset column of the list gets the
      value listed for it, set ones keep theirs, and other columns are left alone. */
  lemma DefaultsAre(d: Defaults, f: Row, n: nat)
    requires d.createdAt.Some? && d.updatedAt.Some? && d.credentials.Some? && d.extra.Some? && n < 11
    ensures var (g, missing) := WithDefaults(d, f);
            var (c, x) := DefaultList(d)[n];
            && missing == None
            && (c !in f ==> c in g && g[c] == x)
            && (forall b | b in f :: b in g && g[b] == f[b])
            && (forall b | b in g && b !in f :: exists m :: 0 <= m < 11 && DefaultList(d)[m].0 == b)
  {
    WithDefaultsIs(d, f);
    var g := WithDefaults(d, f).0;
    HasAllDefaults(d, f);
    DefaultListed(d, n);
    forall b | b in g && b !in f ensures exists m :: 0 <= m < 11 && DefaultList(d)[m].0 == b {
      RankOfDefault(b);
      DefaultListed(d, DefaultRank(b));
    }
  }

  lemma HasAllDefaults(d: Defaults, f: Row)
    requires d.createdAt.Some? && d.updatedAt.Some? && d.credentials.Some? && d.extra.Some?
    ensures WithDefaults(d, f).1 == None
  {
    WithDefaultsIs(d, f);
    if WithDefaults(d, f).1.Some? {
      var c := WithDefaults(d, f).1.value;
      RankOfDefault(c);
      DefaultListed(d, DefaultRank(c));
    }
  }

  /** In any case the column named is the first of the four that is unset and has no default function;
      if there is one, nothing but the first three of them was filled in. */
  lemma DefaultsStop(d: Defaults, f: Row)
    ensures WithDefaults(d, f).1 ==
              if CreatedAt !in f && d.createdAt.None? then Some(CreatedAt)
              else if UpdatedAt !in f && d.updatedAt.None? then Some(UpdatedAt)
              else if Credentials !in f && d.credentials.None? then Some(Credentials)
              else if Extra !in f && d.extra.None? then Some(Extra)
              else None
    ensures forall c | c !in [CreatedAt, UpdatedAt, Credentials] && WithDefaults(d, f).1.Some? ::
              c in WithDefaults(d, f).0 <==> c in f
  {
    WithDefaultsIs(d, f);
    assert forall c :: Lacks(d, f, c) ==> c in [CreatedAt, UpdatedAt, Credentials, Extra];
  }

  // ---------------------------------------------------------------- the dropped error

  /** Whether a single Save of a builder whose hooks set the fields e gets as far as the INSERT:
      defaults must not give up, and then check sees what the hooks made of the fields. */
  predicate SinglePasses(d: Defaults, v: Validators, f: Row, e: Row) {
    WithDefaults(d, f).1.None? && Check(v, WithDefaults(d, f).0 + e).None?
  }

  lemma DefaultedAreRequired(c: Column)
    ensures DefaultRank(c) < DefaultCount ==> Required(c)
  {
  }

  /** Every required column is set by the caller, by a hook, or by defaults before it ends. */
  ghost predicate Complete(d: Defaults, f: Row, e: Row) {
    forall c | Required(c) :: c in f || c in e || DefaultRank(c) < Extent(WithDefaults(d, f).1)
  }

  /** Defaults gives up, and the hooks make up for all that it left unset. */
  ghost predicate Slips(d: Defaults, f: Row, e: Row) {
    WithDefaults(d, f).1.Some? && Complete(d, f, e)
  }

  lemma CompleteIs(d: Defaults, f: Row, e: Row)
    ensures Complete(d, f, e) <==> forall c | Required(c) :: c in WithDefaults(d, f).0 + e
  {
    WithDefaultsIs(d, f);
  }

  lemma PassesIsComplete(d: Defaults, v: Validators, f: Row, e: Row)
    requires Check(v, WithDefaults(d, f).0 + e).None?
    ensures Complete(d, f, e)
  {
    CheckIs(v, WithDefaults(d, f).0 + e);
    CompleteIs(d, f, e);
    assert forall c | Required(c) :: !Bad(v, WithDefaults(d, f).0 + e, c);
  }

  /** Validators that accept everything. */
  const Lenient: Validators := Validators(x => true, x => true, x => true, x => true, x => true, x => true)

  lemma CompletePasses(d: Defaults, f: Row, e: Row)
    requires Complete(d, f, e)
    ensures Check(Lenient, WithDefaults(d, f).0 + e).None?
  {
    CompleteIs(d, f, e);
    RequiredSuffices(WithDefaults(d, f).0 + e);
  }

  lemma RequiredSuffices(g: Row)
    requires forall c | Required(c) :: c in g
    ensures Check(Lenient, g).None?
  {
    CheckIs(Lenient, g);
    forall c ensures !Bad(Lenient, g, c) {
      if c in g {
        LenientAccepts(c, g[c]);
      }
    }
  }

  lemma LenientAccepts(c: Column, x: Cell)
    ensures Accepts(Lenient, c, x)
  {
  }

  /** A bulk element drops the error of defaults and goes on to check; a single Save returns it.
      They agree, whatever the validators are, exactly unless the hooks make up for everything that
      defaults left unset. */
  lemma DroppedErrorIff(d: Defaults, f: Row, e: Row)
    ensures (forall v :: Check(v, WithDefaults(d, f).0 + e).None? <==> SinglePasses(d, v, f, e)) <==> !Slips(d, f, e)
  {
    if Slips(d, f, e) {
      CompletePasses(d, f, e);
      assert !SinglePasses(d, Lenient, f, e);
    } else {
      forall v ensures Check(v, WithDefaults(d, f).0 + e).None? <==> SinglePasses(d, v, f, e) {
        if Check(v, WithDefaults(d, f).0 + e).None? {
          PassesIsComplete(d, v, f, e);
        }
      }
    }
  }

  /** Hooks that do not set a column without a default cannot make up for it. */
  lemma NoSlip(d: Defaults, f: Row, e: Row)
    requires forall c | c in e :: !Lacks(d, f, c)
    ensures !Slips(d, f, e)
  {
    WithDefaultsIs(d, f);
    var missing := WithDefaults(d, f).1;
    if missing.Some? {
      DefaultedAreRequired(missing.value);
    }
  }

  /** So for them, and for builders without hooks, dropping the error does no harm. */
  lemma DroppedErrorHarmless(d: Defaults, v: Validators, f: Row, e: Row)
    requires forall c | c in e :: !Lacks(d, f, c)
    ensures Check(v, WithDefaults(d, f).0 + e).None? <==> SinglePasses(d, v, f, e)
  {
    NoSlip(d, f, e);
    DroppedErrorIff(d, f, e);
  }
}
