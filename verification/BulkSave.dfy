/** The create builders as objects: AccountCreate fills and checks its own mutation in place, and
    AccountCreateBulk.Save runs the chain of mutators over shared slices. */
module BulkSave {
  import opened Schema
  import opened BulkCreate
  import opened CreateChecks

  class AccountCreate {
    var mutation: Mutation
    const hooks: seq<Hook>

    constructor (fields: Row, hooks: seq<Hook>)
      ensures mutation == Mutation(fields, false, None) && this.hooks == hooks
    {
      this.mutation := Mutation(fields, false, None);
      this.hooks := hooks;
    }

    /** One block of defaults: an unset column gets its default, if there is one. */
    method SetDefault(c: Column, v: Option<Cell>) returns (ok: bool)
      modifies this
      ensures ok <==> old(c in mutation.fields) || v.Some?
      ensures mutation == if ok then old(mutation).(fields := Put(old(mutation.fields), c, v)) else old(mutation)
    {
      if c !in mutation.fields {
        if v.None? {
          return false;
        }
        mutation := mutation.(fields := mutation.fields[c := v.value]);
      }
      return true;
    }

    method Defaults(d: Defaults) returns (err: Option<Column>)
      modifies this
      ensures mutation == old(mutation).(fields := WithDefaults(d, old(mutation.fields)).0)
      ensures err == WithDefaults(d, old(mutation.fields)).1
    {
      var ok := SetDefault(CreatedAt, d.createdAt);
      if !ok { return Some(CreatedAt); }
      ok := SetDefault(UpdatedAt, d.updatedAt);
      if !ok { return Some(UpdatedAt); }
      err := SetDocuments(d);
    }

    /** The rest of defaults: the two documents, then the constants. */
    method SetDocuments(d: Defaults) returns (err: Option<Column>)
      modifies this
      ensures mutation == old(mutation).(fields := mutation.fields)
      ensures FillFrom(d, old(mutation.fields), 2) == (mutation.fields, err)
    {
      var ok := SetDefault(Credentials, d.credentials);
      if !ok { return Some(Credentials); }
      ok := SetDefault(Extra, d.extra);
      if !ok { return Some(Extra); }
      SetConstants(d);
      return None;
    }

    /** The second half of defaults: the columns whose default is a constant. */
    method SetConstants(d: Defaults)
      modifies this
      ensures mutation == old(mutation).(fields := mutation.fields)
      ensures FillFrom(d, old(mutation.fields), 4) == (mutation.fields, None)
    {
      var ok := SetDefault(Concurrency, Some(d.concurrency));
      ok := SetDefault(Priority, Some(d.priority));
      ok := SetDefault(RateMultiplier, Some(d.rateMultiplier));
      ok := SetDefault(Status, Some(d.status));
      ok := SetDefault(AutoPauseOnExpired, Some(d.autoPauseOnExpired));
      ok := SetDefault(Schedulable, Some(d.schedulable));
      ok := SetDefault(QuotaDimension, Some(d.quotaDimension));
    }

    method Check(v: Validators) returns (err: Option<Column>)
      ensures err == CreateChecks.Check(v, mutation.fields)
    {
      var f := mutation.fields;
      if CreatedAt !in f { return Some(CreatedAt); }
      if UpdatedAt !in f { return Some(UpdatedAt); }
      if Name !in f { return Some(Name); }
      if !v.name(f[Name]) { return Some(Name); }
      if Platform !in f { return Some(Platform); }
      if !v.platform(f[Platform]) { return Some(Platform); }
      if Type !in f { return Some(Type); }
      if !v.accountType(f[Type]) { return Some(Type); }
      assert CheckFrom(v, f, 0) == CheckFrom(v, f, 5);
      if Credentials !in f { return Some(Credentials); }
      if Extra !in f { return Some(Extra); }
      if Concurrency !in f { return Some(Concurrency); }
      if Priority !in f { return Some(Priority); }
      if RateMultiplier !in f { return Some(RateMultiplier); }
      assert CheckFrom(v, f, 5) == CheckFrom(v, f, 10);
      if Status !in f { return Some(Status); }
      if !v.status(f[Status]) { return Some(Status); }
      if AutoPauseOnExpired !in f { return Some(AutoPauseOnExpired); }
      if Schedulable !in f { return Some(Schedulable); }
      if SessionWindowStatus in f &&
          !v.sessionWindowStatus(f[SessionWindowStatus]) { return Some(SessionWindowStatus); }
      if QuotaDimension !in f { return Some(QuotaDimension); }
      if !v.quotaDimension(f[QuotaDimension]) { return Some(QuotaDimension); }
      return None;
    }
  }

  /** The field checks of this project as the environment of a chain. */
  function EnvOf(v: Validators, driver: nat -> BatchOutcome): Env {
    Env(f => Check(v, f), driver)
  }

  class AccountCreateBulk {
    const err: Option<SaveError>
    const builders: seq<AccountCreate>
    const validators: Validators
    const driver: nat -> BatchOutcome

    // What the closures of one Save share.
    var nodes: seq<Option<Node>>
    var specs: seq<Option<Row>>
    var specIds: seq<Option<int>>

    // What the driver and the hooks have seen during that Save.
    var batches: seq<seq<Option<Row>>>
    var trace: seq<Event>

    constructor (err: Option<SaveError>, builders: seq<AccountCreate>, validators: Validators,
                 driver: nat -> BatchOutcome)
      ensures this.err == err && this.builders == builders
      ensures this.validators == validators && this.driver == driver
    {
      this.err := err;
      this.builders := builders;
      this.validators := validators;
      this.driver := driver;
      this.nodes := [];
      this.specs := [];
      this.specIds := [];
      this.batches := [];
      this.trace := [];
    }

    ghost predicate Distinct() {
      forall i, j | 0 <= i < j < |builders| :: builders[i] != builders[j]
    }

    ghost function Hooks(): (bs: Chain)
      ensures |bs| == |builders| && forall i | 0 <= i < |bs| :: bs[i] == builders[i].hooks
    {
      seq(|builders|, i requires 0 <= i < |builders| => builders[i].hooks)
    }

    /** The objects are in state s. */
    ghost predicate Holds(s: State)
      reads this, builders
    {
      && s.Sized(|builders|)
      && s.nodes == nodes && s.specs == specs && s.specIds == specIds
      && s.batches == batches && s.trace == trace
      && (forall i | 0 <= i < |builders| :: builders[i].mutation == s.mutations[i])
    }

    method RunBatch(ghost s: State) returns (e: Option<SaveError>)
      requires Holds(s)
      modifies this
      ensures Holds(BulkCreate.RunBatch(EnvOf(validators, driver), s).0)
      ensures e == BulkCreate.RunBatch(EnvOf(validators, driver), s).1
    {
      var o := driver(|batches|);
      batches := batches + [specs];
      trace := trace + [Batch];
      match o
      case Rejected(message, constraint) =>
        return Some(if constraint then ConstraintError(message) else BatchError(message));
      case Inserted(ids) =>
        var count := |specs|;
        specIds := seq(count, i requires 0 <= i < count => IdAt(ids, i));
        return None;
    }

    /** The mutator closure of builder i. */
    method InnerMutate(i: nat, ghost s: State) returns (r: Result)
      requires i < |builders| && Distinct() && Holds(s)
      modifies this, builders
      ensures Holds(Step(Hooks(), EnvOf(validators, driver), i, s).0)
      ensures r == Step(Hooks(), EnvOf(validators, driver), i, s).1
      decreases |builders| - i, 0, 0, 0
    {
      var builder := builders[i];
      var failed := builder.Check(validators);
      if failed.Some? {
        return Failed(ValidationError(failed.value));
      }
      var f := builder.mutation.fields;
      nodes, specs, specIds := nodes[i := Some(Node(0, f))], specs[i := Some(f)], specIds[i := None];
      ghost var t := Spec(s, i);
      if i + 1 < |builders| {
        r := Mutate(i + 1, 0, t);
        t := Level(Hooks(), EnvOf(validators, driver), i + 1, 0, t).0;
        if r.Failed? {
          return r;
        }
      } else {
        var e := RunBatch(t);
        t := BulkCreate.RunBatch(EnvOf(validators, driver), t).0;
        if e.Some? {
          return Failed(e.value);
        }
      }
      r := Done(i, t);
    }

    /** The end of a successful mutator: the generated ID, if any, and the done mark. */
    method Done(i: nat, ghost s: State) returns (r: Result)
      requires i < |builders| && Distinct() && Holds(s) && nodes[i].Some?
      modifies this, builders[i]
      ensures Holds(Finish(s, i).0)
      ensures r == Finish(s, i).1
    {
      assert forall j | 0 <= j < |builders| && j != i :: builders[j] != builders[i];
      var node := nodes[i].value;
      if specIds[i].Some? {
        node := node.(id := specIds[i].value);
      }
      nodes := nodes[i := Some(node)];
      builders[i].mutation := builders[i].mutation.(id := Some(node.id), done := true);
      return Saved(node);
    }

    /** mutators[i] from hook h inwards. */
    method Mutate(i: nat, h: nat, ghost s: State) returns (r: Result)
      requires i < |builders| && h <= |builders[i].hooks| && Distinct() && Holds(s)
      modifies this, builders
      ensures Holds(Level(Hooks(), EnvOf(validators, driver), i, h, s).0)
      ensures r == Level(Hooks(), EnvOf(validators, driver), i, h, s).1
      decreases |builders| - i, |builders[i].hooks| - h, 1, 0
    {
      if h == |builders[i].hooks| {
        r := InnerMutate(i, s);
        return;
      }
      var builder := builders[i];
      var hook := builder.hooks[h];
      trace := trace + [Enter(i, h)];
      builder.mutation := builder.mutation.(fields := builder.mutation.fields + hook.edit);
      ghost var t := SetFields(s.(trace := s.trace + [Enter(i, h)]), i, s.mutations[i].fields + hook.edit);
      r := CallNext(i, h, hook.forwards, hook.own, t);
      trace := trace + [Exit(i, h)];
    }

    /** The body of hook h of builder i: it calls the next mutator n more times. */
    method CallNext(i: nat, h: nat, n: nat, last: Result, ghost s: State) returns (r: Result)
      requires i < |builders| && h < |builders[i].hooks| && Distinct() && Holds(s)
      modifies this, builders
      ensures Holds(Forward(Hooks(), EnvOf(validators, driver), i, h, n, s, last).0)
      ensures r == Forward(Hooks(), EnvOf(validators, driver), i, h, n, s, last).1
      decreases |builders| - i, |builders[i].hooks| - h, 0, n
    {
      if n == 0 {
        return last;
      }
      ForwardStep(Hooks(), EnvOf(validators, driver), i, h, n, s, last);
      r := Mutate(i, h + 1, s);
      r := CallNext(i, h, n - 1, r, Level(Hooks(), EnvOf(validators, driver), i, h + 1, s).0);
    }

    /** The mutations of the builders once the defaults are in. */
    ghost function Prepared(d: Defaults): (ms: seq<Mutation>)
      reads builders
      ensures |ms| == |builders|
      ensures forall i | 0 <= i < |ms| ::
                ms[i] == builders[i].mutation.(fields := WithDefaults(d, builders[i].mutation.fields).0)
    {
      seq(|builders|, i requires 0 <= i < |builders| reads builders =>
        builders[i].mutation.(fields := WithDefaults(d, builders[i].mutation.fields).0))
    }

    /** The first loop of Save, as far as the builders go: each error is dropped. */
    method FillDefaults(d: Defaults, ghost ms: seq<Mutation>)
      requires Distinct() && ms == Prepared(d)
      modifies builders
      ensures forall i | 0 <= i < |builders| :: builders[i].mutation == ms[i]
    {
      for i := 0 to |builders|
        invariant forall j | 0 <= j < i :: builders[j].mutation == ms[j]
        invariant forall j | i <= j < |builders| :: builders[j].mutation == old(builders[j].mutation)
      {
        assert forall j | 0 <= j < |builders| && j != i :: builders[j] != builders[i];
        var dropped := builders[i].Defaults(d);
        assert builders[i].mutation == ms[i];
      }
    }

    /** Save does what the chain specification says, and nothing at all on an earlier error. */
    method Save(d: Defaults) returns (r: SaveResult)
      requires Distinct()
      modifies this, builders
      ensures err.Some? ==>
                r == Refused(err.value) && forall i | 0 <= i < |builders| ::
                    builders[i].mutation == old(builders[i].mutation)
      ensures err.None? ==>
                var ms := old(Prepared(d));
                && r == BulkCreate.Save(Hooks(), EnvOf(validators, driver), ms).1
                && Holds(BulkCreate.Save(Hooks(), EnvOf(validators, driver), ms).0)
    {
      if err.Some? {
        return Refused(err.value);
      }
      var count := |builders|;
      nodes, specs, specIds := seq(count, _ => None), seq(count, _ => None), seq(count, _ => None);
      batches, trace := [], [];
      ghost var ms := old(Prepared(d));
      FillDefaults(d, ms);
      if count > 0 {
        var first := Mutate(0, 0, Initial(ms));
        if first.Failed? {
          return Refused(first.error);
        }
      }
      return Nodes(nodes);
    }
  }

  // ---------------------------------------------------------------- a bulk and its builders saved singly

  /** The mutations a bulk save starts from. */
  function Defaulted(d: Defaults, fs: seq<Row>): (ms: seq<Mutation>)
    ensures |ms| == |fs|
    ensures forall i | 0 <= i < |fs| :: ms[i] == Mutation(WithDefaults(d, fs[i]).0, false, None)
  {
    seq(|fs|, i requires 0 <= i < |fs| => Mutation(WithDefaults(d, fs[i]).0, false, None))
  }

  datatype SingleResult = Uninitialized(column: Column) | Ran(state: State, result: SaveResult)

  /** AccountCreate.Save: it returns the error of defaults; then its hooks wrap check and INSERT, as
      in a chain of one builder. */
  function SingleSave(d: Defaults, env: Env, hooks: seq<Hook>, f: Row): SingleResult {
    if WithDefaults(d, f).1.Some? then Uninitialized(WithDefaults(d, f).1.value)
    else
      var run := BulkCreate.Save([hooks], env, Defaulted(d, [f]));
      Ran(run.0, run.1)
  }

  /** The INSERTs of a single Save and of a bulk. */
  function SingleInserts(d: Defaults, env: Env, hooks: seq<Hook>, f: Row): nat {
    var r := SingleSave(d, env, hooks, f);
    if r.Ran? then |r.state.batches| else 0
  }

  function BulkInserts(d: Defaults, env: Env, bs: Chain, fs: seq<Row>): nat
    requires |bs| == |fs|
  {
    |BulkCreate.Save(bs, env, Defaulted(d, fs)).0.batches|
  }

  lemma SingleOnce(d: Defaults, v: Validators, driver: nat -> BatchOutcome, hooks: seq<Hook>, f: Row)
    requires Once([hooks])
    ensures SingleInserts(d, EnvOf(v, driver), hooks, f) == if SinglePasses(d, v, f, Edits(hooks, 0)) then 1 else 0
  {
    if WithDefaults(d, f).1.None? {
      var bs, env, ms := [hooks], EnvOf(v, driver), Defaulted(d, [f]);
      ExactlyOnce(bs, env, ms);
      assert Targets(bs, ms)[0] == WithDefaults(d, f).0 + Edits(hooks, 0);
      assert AllPass(env, Targets(bs, ms), 0) <==> env.check(Targets(bs, ms)[0]).None?;
    }
  }

  lemma BulkOnce(d: Defaults, v: Validators, driver: nat -> BatchOutcome, bs: Chain, fs: seq<Row>)
    requires |bs| == |fs| && Once(bs)
    ensures BulkInserts(d, EnvOf(v, driver), bs, fs) ==
              if fs != [] && (forall i | 0 <= i < |fs| ::
                                Check(v, WithDefaults(d, fs[i]).0 + Edits(bs[i], 0)).None?) then 1 else 0
  {
    var env, ms := EnvOf(v, driver), Defaulted(d, fs);
    ExactlyOnce(bs, env, ms);
    var target := Targets(bs, ms);
    assert forall i | 0 <= i < |fs| :: target[i] == WithDefaults(d, fs[i]).0 + Edits(bs[i], 0);
  }

  /** Every builder of the bulk, saved by itself, would send its INSERT. */
  ghost predicate AllInsert(d: Defaults, env: Env, bs: Chain, fs: seq<Row>)
    requires |bs| == |fs|
  {
    forall i | 0 <= i < |fs| :: SingleInserts(d, env, bs[i], fs[i]) == 1
  }

  lemma AllInsertIff(d: Defaults, v: Validators, driver: nat -> BatchOutcome, bs: Chain, fs: seq<Row>)
    requires |bs| == |fs| && Once(bs)
    ensures AllInsert(d, EnvOf(v, driver), bs, fs) <==>
              forall i | 0 <= i < |fs| :: SinglePasses(d, v, fs[i], Edits(bs[i], 0))
  {
    forall i | 0 <= i < |fs|
      ensures SingleInserts(d, EnvOf(v, driver), bs[i], fs[i]) == 1 <==> SinglePasses(d, v, fs[i], Edits(bs[i], 0))
    {
      SingleOnce(d, v, driver, bs[i], fs[i]);
    }
  }

  /** Defaults gives up on some builder, and yet no builder lacks a required column at its check. */
  ghost predicate BulkSlips(d: Defaults, bs: Chain, fs: seq<Row>)
    requires |bs| == |fs|
  {
    && (exists i :: 0 <= i < |fs| && Slips(d, fs[i], Edits(bs[i], 0)))
    && (forall i | 0 <= i < |fs| :: Complete(d, fs[i], Edits(bs[i], 0)))
  }

  /** Dropping the errors of defaults, over a whole bulk with forward-once hooks: unless the hooks
      make up for what defaults left unset, the one batch is sent iff there is a builder and every
      builder would send its INSERT in a Save of its own. */
  lemma BulkPassesIffSinglesPass(d: Defaults, v: Validators, driver: nat -> BatchOutcome, bs: Chain, fs: seq<Row>)
    requires |bs| == |fs| && Once(bs) && !BulkSlips(d, bs, fs)
    ensures BulkInserts(d, EnvOf(v, driver), bs, fs) ==
              if fs != [] && AllInsert(d, EnvOf(v, driver), bs, fs) then 1 else 0
  {
    BulkOnce(d, v, driver, bs, fs);
    AllInsertIff(d, v, driver, bs, fs);
    if forall i | 0 <= i < |fs| :: Check(v, WithDefaults(d, fs[i]).0 + Edits(bs[i], 0)).None? {
      forall i | 0 <= i < |fs| ensures Complete(d, fs[i], Edits(bs[i], 0)) {
        PassesIsComplete(d, v, fs[i], Edits(bs[i], 0));
      }
      assert forall i | 0 <= i < |fs| :: !Slips(d, fs[i], Edits(bs[i], 0));
    }
  }

  /** That condition holds for hooks that set no column without a default, and without hooks. */
  lemma OrdinaryHooks(d: Defaults, bs: Chain, fs: seq<Row>)
    requires |bs| == |fs|
    requires forall i | 0 <= i < |fs| :: forall c | c in Edits(bs[i], 0) :: !Lacks(d, fs[i], c)
    ensures !BulkSlips(d, bs, fs)
  {
    forall i | 0 <= i < |fs| ensures !Slips(d, fs[i], Edits(bs[i], 0)) {
      NoSlip(d, fs[i], Edits(bs[i], 0));
    }
  }

  /** Otherwise, with validators that accept, the bulk sends its batch although some builder, saved by
      itself, returns the error of defaults and sends nothing. */
  lemma SlippedThrough(d: Defaults, driver: nat -> BatchOutcome, bs: Chain, fs: seq<Row>) returns (i: nat)
    requires |bs| == |fs| && Once(bs) && BulkSlips(d, bs, fs)
    ensures i < |fs| && SingleSave(d, EnvOf(Lenient, driver), bs[i], fs[i]).Uninitialized?
    ensures Lacks(d, fs[i], SingleSave(d, EnvOf(Lenient, driver), bs[i], fs[i]).column)
    ensures BulkInserts(d, EnvOf(Lenient, driver), bs, fs) == 1
    ensures !AllInsert(d, EnvOf(Lenient, driver), bs, fs)
  {
    i :| 0 <= i < |fs| && Slips(d, fs[i], Edits(bs[i], 0));
    WithDefaultsIs(d, fs[i]);
    BulkOnce(d, Lenient, driver, bs, fs);
    forall j | 0 <= j < |fs| ensures Check(Lenient, WithDefaults(d, fs[j]).0 + Edits(bs[j], 0)).None? {
      CompletePasses(d, fs[j], Edits(bs[j], 0));
    }
    assert SingleInserts(d, EnvOf(Lenient, driver), bs[i], fs[i]) == 0;
  }

  /** A bulk and its builders saved singly agree whatever the validators are, exactly unless defaults
      gives up on a builder and hooks make up for all that is unset. */
  lemma BulkAgreesIff(d: Defaults, driver: nat -> BatchOutcome, bs: Chain, fs: seq<Row>)
    requires |bs| == |fs| && Once(bs)
    ensures (forall v :: BulkInserts(d, EnvOf(v, driver), bs, fs) == 1 <==>
                           fs != [] && AllInsert(d, EnvOf(v, driver), bs, fs))
            <==> !BulkSlips(d, bs, fs)
  {
    if BulkSlips(d, bs, fs) {
      var i := SlippedThrough(d, driver, bs, fs);
    } else {
      forall v ensures BulkInserts(d, EnvOf(v, driver), bs, fs) == 1 <==>
                         fs != [] && AllInsert(d, EnvOf(v, driver), bs, fs) {
        BulkPassesIffSinglesPass(d, v, driver, bs, fs);
      }
    }
  }
}
