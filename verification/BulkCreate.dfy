/** AccountCreateBulk.Save: a chain of mutators in which every builder's hooks wrap its own step,
    every step calls the next builder's chain, and only the last step issues the batch. */
module BulkCreate {
  import opened Schema

  // ---------------------------------------------------------------- model

  /** An account node as createSpec returns it; the ID is filled in after the batch. */
  datatype Node = Node(id: int, fields: Row)

  datatype SaveError =
    | ValidationError(name: Column)
    | BatchError(message: string)
    | ConstraintError(message: string)
    | HookError(message: string)

  datatype Result = Saved(node: Node) | Failed(error: SaveError)

  /** A hook: it may set fields of the mutation, then calls the next mutator some number of times,
      and returns the last inner result, or its own result if it never calls. */
  datatype Hook = Hook(edit: Row, forwards: nat, own: Result)

  /** The outcome of one INSERT: the generated IDs, or an error. */
  datatype BatchOutcome = Inserted(ids: seq<Option<int>>) | Rejected(message: string, constraint: bool)

  /** What is outside this file: the field checks and the driver's answer to each batch. */
  datatype Env = Env(check: Row -> Option<Column>, driver: nat -> BatchOutcome)

  datatype Event = Enter(builder: nat, hook: nat) | Exit(builder: nat, hook: nat) | Batch

  datatype Mutation = Mutation(fields: Row, done: bool, id: Option<int>)

  /** Everything the closures of one Save call share. */
  datatype State = State(
    mutations: seq<Mutation>,
    nodes: seq<Option<Node>>,
    specs: seq<Option<Row>>,
    specIds: seq<Option<int>>,
    batches: seq<seq<Option<Row>>>,
    trace: seq<Event>)
  {
    predicate Sized(n: nat) {
      |mutations| == n && |nodes| == n && |specs| == n && |specIds| == n
    }
  }

  type Chain = seq<seq<Hook>>

  /** What belongs to the builders before i is the same in both states. */
  ghost predicate Untouched(s: State, t: State, i: nat) {
    && |s.mutations| == |t.mutations| && |s.nodes| == |t.nodes| && |s.specs| == |t.specs|
    && (forall j | 0 <= j < i && j < |s.mutations| :: t.mutations[j] == s.mutations[j])
    && (forall j | 0 <= j < i && j < |s.nodes| :: t.nodes[j] == s.nodes[j])
    && (forall j | 0 <= j < i && j < |s.specs| :: t.specs[j] == s.specs[j])
  }

  function Wrap(o: BatchOutcome): SaveError
    requires o.Rejected?
  {
    if o.constraint then ConstraintError(o.message) else BatchError(o.message)
  }

  function IdAt(ids: seq<Option<int>>, i: nat): Option<int> {
    if i < |ids| then ids[i] else None
  }

  /** The batch: all collected specs go out in one INSERT. */
  function RunBatch(env: Env, s: State): (r: (State, Option<SaveError>))
  {
    var t := s.(batches := s.batches + [s.specs], trace := s.trace + [Batch]);
    match env.driver(|s.batches|)
    case Rejected(_, _) => (t, Some(Wrap(env.driver(|s.batches|))))
    case Inserted(ids) => (t.(specIds := seq(|s.specs|, i requires 0 <= i < |s.specs| => IdAt(ids, i))), None)
  }

  function SetFields(s: State, i: nat, f: Row): State
    requires i < |s.mutations|
  {
    s.(mutations := s.mutations[i := s.mutations[i].(fields := f)])
  }

  /** createSpec: the node and the spec of builder i. */
  function Spec(s: State, i: nat): State
    requires i < |s.mutations| && s.Sized(|s.mutations|)
  {
    var f := s.mutations[i].fields;
    s.(nodes := s.nodes[i := Some(Node(0, f))], specs := s.specs[i := Some(f)], specIds := s.specIds[i := None])
  }

  /** After success: the node takes the generated ID, the mutation points at it and is done. */
  function Finish(s: State, i: nat): (State, Result)
    requires i < |s.mutations| && s.Sized(|s.mutations|) && s.nodes[i].Some?
  {
    var node := if s.specIds[i].Some? then s.nodes[i].value.(id := s.specIds[i].value) else s.nodes[i].value;
    (s.(nodes := s.nodes[i := Some(node)],
        mutations := s.mutations[i := s.mutations[i].(done := true, id := Some(node.id))]),
     Saved(node))
  }

  /** The innermost mutator of builder i. */
  function Step(bs: Chain, env: Env, i: nat, s: State): (r: (State, Result))
    requires i < |bs| && s.Sized(|bs|)
    ensures r.0.Sized(|bs|)
    ensures Untouched(s, r.0, i)
    decreases |bs| - i, 0, 0, 0
  {
    var checked := env.check(s.mutations[i].fields);
    if checked.Some? then (s, Failed(ValidationError(checked.value)))
    else
      var t := Spec(s, i);
      if i + 1 < |bs| then
        var (u, r) := Level(bs, env, i + 1, 0, t);
        if r.Failed? then (u, r) else Finish(u, i)
      else
        var (u, e) := RunBatch(env, t);
        if e.Some? then (u, Failed(e.value)) else Finish(u, i)
  }

  /** The mutator of builder i from hook h inwards. */
  function Level(bs: Chain, env: Env, i: nat, h: nat, s: State): (r: (State, Result))
    requires i < |bs| && h <= |bs[i]| && s.Sized(|bs|)
    ensures r.0.Sized(|bs|)
    ensures Untouched(s, r.0, i)
    decreases |bs| - i, |bs[i]| - h, 1, 0
  {
    if h == |bs[i]| then Step(bs, env, i, s)
    else
      var hook := bs[i][h];
      var t := SetFields(s.(trace := s.trace + [Enter(i, h)]), i, s.mutations[i].fields + hook.edit);
      var (u, r) := Forward(bs, env, i, h, hook.forwards, t, hook.own);
      (u.(trace := u.trace + [Exit(i, h)]), r)
  }

  /** Hook h of builder i calls the next mutator n more times. */
  function Forward(bs: Chain, env: Env, i: nat, h: nat, n: nat, s: State, last: Result): (r: (State, Result))
    requires i < |bs| && h < |bs[i]| && s.Sized(|bs|)
    ensures r.0.Sized(|bs|)
    ensures Untouched(s, r.0, i)
    decreases |bs| - i, |bs[i]| - h, 0, n
  {
    if n == 0 then (s, last)
    else
      var (t, r) := Level(bs, env, i, h + 1, s);
      Forward(bs, env, i, h, n - 1, t, r)
  }

  // ---------------------------------------------------------------- the mutation a builder ends up with

  /** The combined edits of the hooks from h on; a later hook overrides an earlier one. */
  function Edits(hooks: seq<Hook>, h: nat): Row
    requires h <= |hooks|
    decreases |hooks| - h
  {
    if h == |hooks| then map[] else hooks[h].edit + Edits(hooks, h + 1)
  }

  /** Whatever hooks already ran, the remaining ones bring every mutation to its target. */
  ghost predicate Aimed(bs: Chain, i: nat, h: nat, s: State, target: seq<Row>)
    requires i < |bs| && h <= |bs[i]| && s.Sized(|bs|)
  {
    && |target| == |bs|
    && s.mutations[i].fields + Edits(bs[i], h) == target[i]
    && forall j | i < j < |bs| :: s.mutations[j].fields + Edits(bs[j], 0) == target[j]
  }

  ghost predicate AllPass(env: Env, target: seq<Row>, i: nat) {
    forall j | i <= j < |target| :: env.check(target[j]).None?
  }

  // ---------------------------------------------------------------- how often the batch runs

  /** The product of the forward counts of the hooks of builder i from h on, and of all later
      builders. */
  function Product(bs: Chain, i: nat, h: nat): nat
    requires i <= |bs| && (i < |bs| ==> h <= |bs[i]|)
    decreases |bs| - i, if i < |bs| then |bs[i]| - h else 0
  {
    if i == |bs| then 1
    else if h == |bs[i]| then Product(bs, i + 1, 0)
    else bs[i][h].forwards * Product(bs, i, h + 1)
  }

  lemma EditTwice(f: Row, e: Row, rest: Row, target: Row, f': Row)
    requires (f + e) + rest == target && f' + rest == target
    ensures f' + (e + rest) == target
  {
    var g := f' + (e + rest);
    assert g.Keys == target.Keys;
    forall k | k in g ensures g[k] == target[k] {
      if k !in rest && k in e {
        assert ((f + e) + rest)[k] == e[k];
      }
    }
  }

  /** With hooks that call on any number of times, the batch runs as often as the product of the
      forward counts says, provided every check passes, and otherwise not at all. */
  lemma {:induction false} LevelCount(bs: Chain, env: Env, i: nat, h: nat, s: State, target: seq<Row>)
    requires i < |bs| && h <= |bs[i]| && s.Sized(|bs|) && Aimed(bs, i, h, s, target)
    ensures Aimed(bs, i, h, Level(bs, env, i, h, s).0, target)
    ensures |Level(bs, env, i, h, s).0.batches| == |s.batches| + if AllPass(env, target, i) then Product(bs, i,
              h) else 0
    decreases |bs| - i, |bs[i]| - h, 1, 0
  {
    if h == |bs[i]| {
      StepCount(bs, env, i, s, target);
    } else {
      var hook := bs[i][h];
      var f := s.mutations[i].fields;
      var t := SetFields(s.(trace := s.trace + [Enter(i, h)]), i, f + hook.edit);
      assert (f + hook.edit) + Edits(bs[i], h + 1) == f + (hook.edit + Edits(bs[i], h + 1));
      ForwardCount(bs, env, i, h, hook.forwards, t, hook.own, target);
      var u := Forward(bs, env, i, h, hook.forwards, t, hook.own).0;
      EditTwice(f, hook.edit, Edits(bs[i], h + 1), target[i], u.mutations[i].fields);
    }
  }

  lemma {:induction false} ForwardCount(bs: Chain, env: Env, i: nat, h: nat, n: nat, s: State, last: Result,
                                        target: seq<Row>)
    requires i < |bs| && h < |bs[i]| && s.Sized(|bs|) && Aimed(bs, i, h + 1, s, target)
    ensures Aimed(bs, i, h + 1, Forward(bs, env, i, h, n, s, last).0, target)
    ensures |Forward(bs, env, i, h, n, s, last).0.batches| == |s.batches| + if AllPass(env, target,
              i) then n * Product(bs, i, h + 1) else 0
    decreases |bs| - i, |bs[i]| - h, 0, n
  {
    if n != 0 {
      LevelCount(bs, env, i, h + 1, s, target);
      var (t, r) := Level(bs, env, i, h + 1, s);
      ForwardCount(bs, env, i, h, n - 1, t, r, target);
      assert n * Product(bs, i, h + 1) == Product(bs, i, h + 1) + (n - 1) * Product(bs, i, h + 1);
    }
  }

  lemma AllPassStep(env: Env, target: seq<Row>, i: nat)
    requires i < |target|
    ensures AllPass(env, target, i) <==> env.check(target[i]).None? && AllPass(env, target, i + 1)
  {
  }

  /** What a step leaves alone: its own fields and everything later that the rest of the chain did. */
  ghost predicate StepKeeps(i: nat, f: Row, u: State, t: State) {
    && t.batches == u.batches && |t.mutations| == |u.mutations| && i < |t.mutations|
    && t.mutations[i].fields == f
    && (forall j | i < j < |t.mutations| :: t.mutations[j].fields == u.mutations[j].fields)
  }

  lemma StepMiddle(bs: Chain, env: Env, i: nat, s: State)
    requires i + 1 < |bs| && s.Sized(|bs|) && env.check(s.mutations[i].fields).None?
    ensures StepKeeps(i, s.mutations[i].fields, Level(bs, env, i + 1, 0, Spec(s, i)).0, Step(bs, env, i, s).0)
  {
  }

  lemma StepLast(bs: Chain, env: Env, i: nat, s: State)
    requires i + 1 == |bs| && s.Sized(|bs|) && env.check(s.mutations[i].fields).None?
    ensures |Step(bs, env, i, s).0.batches| == |s.batches| + 1
    ensures Step(bs, env, i, s).0.mutations[i].fields == s.mutations[i].fields
  {
  }

  /** Being on target only depends on the fields. */
  lemma AimedSame(bs: Chain, i: nat, s: State, t: State, target: seq<Row>)
    requires i < |bs| == |target| && s.Sized(|bs|) && t.Sized(|bs|)
    requires i + 1 < |bs| ==> Aimed(bs, i + 1, 0, s, target)
    requires t.mutations[i].fields == target[i]
    requires forall j | i < j < |bs| :: t.mutations[j].fields == s.mutations[j].fields
    ensures Aimed(bs, i, |bs[i]|, t, target)
  {
    assert target[i] + map[] == target[i];
  }

  lemma AimedAtEnd(bs: Chain, i: nat, s: State, target: seq<Row>)
    requires i < |bs| && s.Sized(|bs|) && Aimed(bs, i, |bs[i]|, s, target)
    ensures s.mutations[i].fields == target[i]
    ensures i + 1 < |bs| ==> Aimed(bs, i + 1, 0, Spec(s, i), target)
  {
    assert s.mutations[i].fields + map[] == s.mutations[i].fields;
  }

  lemma {:induction false} StepCount(bs: Chain, env: Env, i: nat, s: State, target: seq<Row>)
    requires i < |bs| && s.Sized(|bs|) && Aimed(bs, i, |bs[i]|, s, target)
    ensures Aimed(bs, i, |bs[i]|, Step(bs, env, i, s).0, target)
    ensures |Step(bs, env, i, s).0.batches| == |s.batches| + if AllPass(env, target, i) then Product(bs, i + 1,
              0) else 0
    decreases |bs| - i, 0, 0, 0
  {
    AimedAtEnd(bs, i, s, target);
    AllPassStep(env, target, i);
    var t := Step(bs, env, i, s).0;
    if env.check(target[i]).None? {
      if i + 1 < |bs| {
        LevelCount(bs, env, i + 1, 0, Spec(s, i), target);
        StepMiddle(bs, env, i, s);
        AimedSame(bs, i, Level(bs, env, i + 1, 0, Spec(s, i)).0, t, target);
      } else {
        StepLast(bs, env, i, s);
        AimedSame(bs, i, s, t, target);
      }
    }
  }

  // ---------------------------------------------------------------- hooks that forward once

  ghost predicate Once(bs: Chain) {
    forall i, h | 0 <= i < |bs| && 0 <= h < |bs[i]| :: bs[i][h].forwards == 1
  }

  /** The first builder from i on whose check fails, or |target|. */
  function FirstFail(env: Env, target: seq<Row>, i: nat): (k: nat)
    requires i <= |target|
    ensures i <= k <= |target|
    ensures forall j | i <= j < k :: env.check(target[j]).None?
    ensures k < |target| ==> env.check(target[k]).Some?
    decreases |target| - i
  {
    if i == |target| || env.check(target[i]).Some? then i else FirstFail(env, target, i + 1)
  }

  /** The hook entries from (i, h) on, up to and including builder k. */
  function Enters(bs: Chain, i: nat, h: nat, k: nat): seq<Event>
    requires i <= |bs| && (i < |bs| ==> h <= |bs[i]|)
    decreases |bs| - i, if i < |bs| then |bs[i]| - h else 0
  {
    if i == |bs| || i > k then []
    else if h == |bs[i]| then Enters(bs, i + 1, 0, k)
    else [Enter(i, h)] + Enters(bs, i, h + 1, k)
  }

  /** The matching exits, in reverse order. */
  function Mirror(es: seq<Event>): seq<Event> {
    if es == [] then []
    else Mirror(es[1..]) + [if es[0].Enter? then Exit(es[0].builder, es[0].hook) else es[0]]
  }

  /** What happens from (i, h) on when the first failing check is at k: the entries, the batch if
      every check passed, and the exits in reverse. */
  function Nested(bs: Chain, i: nat, h: nat, k: nat): seq<Event>
    requires i <= |bs| && (i < |bs| ==> h <= |bs[i]|)
  {
    Enters(bs, i, h, k) + (if k >= |bs| then [Batch] else []) + Mirror(Enters(bs, i, h, k))
  }

  lemma NestedHook(bs: Chain, i: nat, h: nat, k: nat)
    requires i < |bs| && h < |bs[i]| && i <= k
    ensures Nested(bs, i, h, k) == [Enter(i, h)] + Nested(bs, i, h + 1, k) + [Exit(i, h)]
  {
    var rest := Enters(bs, i, h + 1, k);
    assert ([Enter(i, h)] + rest)[1..] == rest;
  }

  function Generated(o: BatchOutcome, j: nat): int {
    if o.Inserted? && IdAt(o.ids, j).Some? then IdAt(o.ids, j).value else 0
  }

  /** The specs that go out: those collected before builder i, and the targets from i on. */
  function Sent(s: State, target: seq<Row>, i: nat): seq<Option<Row>>
    requires s.Sized(|target|)
  {
    seq(|target|, j requires 0 <= j < |target| => if j < i then s.specs[j] else Some(target[j]))
  }

  /** What was seen from outside: the nested trace, and one batch if every check passed. */
  ghost predicate Seen(bs: Chain, env: Env, i: nat, h: nat, s: State, target: seq<Row>, t: State)
    requires i < |bs| == |target| && h <= |bs[i]| && s.Sized(|bs|)
  {
    var k := FirstFail(env, target, i);
    && t.trace == s.trace + Nested(bs, i, h, k)
    && t.batches == s.batches + (if k == |bs| then [Sent(s, target, i)] else [])
  }

  /** The nodes and mutations from builder i on when the driver inserted the batch with outcome o. */
  ghost predicate Settled(o: BatchOutcome, i: nat, target: seq<Row>, t: State)
    requires i <= |target| && t.Sized(|target|) && o.Inserted?
  {
    && (forall j | 0 <= j < |target| :: t.specIds[j] == IdAt(o.ids, j))
    && (forall j | i <= j < |target| :: t.nodes[j] == Some(Node(Generated(o, j), target[j])))
    && (forall j | i <= j < |target| :: t.mutations[j] == Mutation(target[j], true, Some(Generated(o, j))))
  }

  /** No mutation from builder i on was marked. */
  ghost predicate Unmarked(i: nat, s: State, t: State)
    requires |s.mutations| == |t.mutations|
  {
    forall j | i <= j < |s.mutations| ::
      t.mutations[j].done == s.mutations[j].done && t.mutations[j].id == s.mutations[j].id
  }

  /** The result of a chain of forward-once hooks from builder i on, in closed form. */
  ghost predicate OnceOutcome(bs: Chain, env: Env, i: nat, h: nat, s: State, target: seq<Row>, t: State, r: Result)
    requires i < |bs| == |target| && h <= |bs[i]| && s.Sized(|bs|) && t.Sized(|bs|)
  {
    var k, n, o := FirstFail(env, target, i), |bs|, env.driver(|s.batches|);
    && Seen(bs, env, i, h, s, target, t)
    && (k < n ==> r == Failed(ValidationError(env.check(target[k]).value)))
    && (k == n && o.Rejected? ==> r == Failed(Wrap(o)))
    && (k == n && o.Inserted? ==> r == Saved(Node(Generated(o, i), target[i])) && Settled(o, i, target, t))
    && (k < n || o.Rejected? ==> Unmarked(i, s, t))
  }

  lemma ForwardOnce(bs: Chain, env: Env, i: nat, h: nat, s: State, last: Result)
    requires i < |bs| && h < |bs[i]| && s.Sized(|bs|)
    ensures Forward(bs, env, i, h, 1, s, last) == Level(bs, env, i, h + 1, s)
  {
    var (t, r) := Level(bs, env, i, h + 1, s);
    assert Forward(bs, env, i, h, 0, t, r) == (t, r);
  }

  /** State t is s just after hook h of builder i was entered. */
  ghost predicate Entered(s: State, t: State, i: nat, h: nat)
    requires i < |s.mutations|
  {
    && t.trace == s.trace + [Enter(i, h)]
    && t.batches == s.batches && t.specs == s.specs && t.nodes == s.nodes && t.specIds == s.specIds
    && |t.mutations| == |s.mutations|
    && (forall j | 0 <= j < |s.mutations| ::
          t.mutations[j].done == s.mutations[j].done && t.mutations[j].id == s.mutations[j].id)
  }

  lemma SeenThroughHook(bs: Chain, env: Env, i: nat, h: nat, s: State, t: State, target: seq<Row>, u: State)
    requires i < |bs| == |target| && h < |bs[i]| && s.Sized(|bs|) && t.Sized(|bs|)
    requires Entered(s, t, i, h)
    requires Seen(bs, env, i, h + 1, t, target, u)
    ensures Seen(bs, env, i, h, s, target, u.(trace := u.trace + [Exit(i, h)]))
  {
    var k := FirstFail(env, target, i);
    NestedHook(bs, i, h, k);
    SentSame(s, t, target, i);
    Around(s.trace, Enter(i, h), Nested(bs, i, h + 1, k), Exit(i, h));
  }

  lemma SentSame(s: State, t: State, target: seq<Row>, i: nat)
    requires s.Sized(|target|) && t.Sized(|target|) && s.specs == t.specs
    ensures Sent(s, target, i) == Sent(t, target, i)
  {
  }

  lemma Around(trace: seq<Event>, x: Event, inner: seq<Event>, y: Event)
    ensures (trace + [x] + inner) + [y] == trace + ([x] + inner + [y])
  {
  }

  lemma OnceThroughHook(bs: Chain, env: Env, i: nat, h: nat, s: State, t: State, target: seq<Row>, u: State, r: Result)
    requires i < |bs| == |target| && h < |bs[i]| && s.Sized(|bs|) && t.Sized(|bs|) && u.Sized(|bs|)
    requires Entered(s, t, i, h)
    requires OnceOutcome(bs, env, i, h + 1, t, target, u, r)
    ensures OnceOutcome(bs, env, i, h, s, target, u.(trace := u.trace + [Exit(i, h)]), r)
  {
    SeenThroughHook(bs, env, i, h, s, t, target, u);
  }

  lemma EnterHook(bs: Chain, env: Env, i: nat, h: nat, s: State, target: seq<Row>) returns (t: State)
    requires i < |bs| && h < |bs[i]| && s.Sized(|bs|) && Aimed(bs, i, h, s, target) && Once(bs)
    ensures t.Sized(|bs|) && Entered(s, t, i, h) && Aimed(bs, i, h + 1, t, target)
    ensures Level(bs, env, i, h, s).0 == Level(bs, env, i, h + 1,
                                               t).0.(trace := Level(bs, env, i, h + 1, t).0.trace + [Exit(i, h)])
    ensures Level(bs, env, i, h, s).1 == Level(bs, env, i, h + 1, t).1
  {
    var hook, f := bs[i][h], s.mutations[i].fields;
    t := SetFields(s.(trace := s.trace + [Enter(i, h)]), i, f + hook.edit);
    assert (f + hook.edit) + Edits(bs[i], h + 1) == f + (hook.edit + Edits(bs[i], h + 1));
    ForwardOnce(bs, env, i, h, t, hook.own);
  }

  /** With forward-once hooks the chain from (i, h) on has the closed-form outcome. */
  lemma {:induction false} LevelOnce(bs: Chain, env: Env, i: nat, h: nat, s: State, target: seq<Row>)
    requires i < |bs| && h <= |bs[i]| && s.Sized(|bs|) && Aimed(bs, i, h, s, target) && Once(bs)
    ensures OnceOutcome(bs, env, i, h, s, target, Level(bs, env, i, h, s).0, Level(bs, env, i, h, s).1)
    decreases |bs| - i, |bs[i]| - h, 1
  {
    if h == |bs[i]| {
      StepOnce(bs, env, i, s, target);
    } else {
      var t := EnterHook(bs, env, i, h, s, target);
      LevelOnce(bs, env, i, h + 1, t, target);
      OnceThroughHook(bs, env, i, h, s, t, target, Level(bs, env, i, h + 1, t).0, Level(bs, env, i, h + 1, t).1);
    }
  }

  /** A step that passes its check and is not the last one. */
  lemma OnceMiddle(bs: Chain, env: Env, i: nat, s: State, target: seq<Row>, u: State, r: Result)
    requires i + 1 < |bs| == |target| && s.Sized(|bs|) && u.Sized(|bs|) && env.check(target[i]).None?
    requires s.mutations[i].fields == target[i]
    requires (u, r) == Level(bs, env, i + 1, 0, Spec(s, i))
    requires OnceOutcome(bs, env, i + 1, 0, Spec(s, i), target, u, r)
    ensures OnceOutcome(bs, env, i, |bs[i]|, s, target, Step(bs, env, i, s).0, Step(bs, env, i, s).1)
  {
    var t := Step(bs, env, i, s).0;
    assert Sent(Spec(s, i), target, i + 1) == Sent(s, target, i);
    assert Seen(bs, env, i, |bs[i]|, s, target, t);
  }

  lemma OnceLast(bs: Chain, env: Env, i: nat, s: State, target: seq<Row>)
    requires i + 1 == |bs| == |target| && s.Sized(|bs|) && env.check(target[i]).None?
    requires s.mutations[i].fields == target[i]
    ensures OnceOutcome(bs, env, i, |bs[i]|, s, target, Step(bs, env, i, s).0, Step(bs, env, i, s).1)
  {
    assert Enters(bs, i + 1, 0, |bs|) == [];
    assert Spec(s, i).specs == Sent(s, target, i);
    assert Seen(bs, env, i, |bs[i]|, s, target, Step(bs, env, i, s).0);
  }

  lemma {:induction false} StepOnce(bs: Chain, env: Env, i: nat, s: State, target: seq<Row>)
    requires i < |bs| && s.Sized(|bs|) && Aimed(bs, i, |bs[i]|, s, target) && Once(bs)
    ensures OnceOutcome(bs, env, i, |bs[i]|, s, target, Step(bs, env, i, s).0, Step(bs, env, i, s).1)
    decreases |bs| - i, 0, 0
  {
    AimedAtEnd(bs, i, s, target);
    if env.check(target[i]).Some? {
      assert Enters(bs, i + 1, 0, i) == [];
    } else if i + 1 < |bs| {
      var t := Spec(s, i);
      LevelOnce(bs, env, i + 1, 0, t, target);
      OnceMiddle(bs, env, i, s, target, Level(bs, env, i + 1, 0, t).0, Level(bs, env, i + 1, 0, t).1);
    } else {
      OnceLast(bs, env, i, s, target);
    }
  }

  // ---------------------------------------------------------------- the whole save

  datatype SaveResult = Nodes(nodes: seq<Option<Node>>) | Refused(error: SaveError)

  /** The state when the first mutator is called. */
  function Initial(ms: seq<Mutation>): (s: State)
    ensures s.Sized(|ms|)
  {
    State(ms, seq(|ms|, _ => None), seq(|ms|, _ => None), seq(|ms|, _ => None), [], [])
  }

  /** Save, after the defaults were filled in: the final state and what the caller gets. */
  function Save(bs: Chain, env: Env, ms: seq<Mutation>): (State, SaveResult)
    requires |ms| == |bs|
  {
    if |bs| == 0 then (Initial(ms), Nodes([]))
    else
      var (t, r) := Level(bs, env, 0, 0, Initial(ms));
      (t, if r.Failed? then Refused(r.error) else Nodes(t.nodes))
  }

  /** The fields that reach each builder's check: its own, edited by its hooks in order. */
  function Targets(bs: Chain, ms: seq<Mutation>): (target: seq<Row>)
    requires |ms| == |bs|
    ensures |target| == |bs|
    ensures forall j | 0 <= j < |bs| :: target[j] == ms[j].fields + Edits(bs[j], 0)
  {
    seq(|bs|, j requires 0 <= j < |bs| => ms[j].fields + Edits(bs[j], 0))
  }

  /** With hooks that call on any number of times, the number of batches is the product of the
      forward counts if every check passes, and zero otherwise. */
  lemma BatchCount(bs: Chain, env: Env, ms: seq<Mutation>)
    requires |ms| == |bs| > 0
    ensures |Save(bs, env, ms).0.batches| == if AllPass(env, Targets(bs, ms), 0) then Product(bs, 0, 0) else 0
  {
    LevelCount(bs, env, 0, 0, Initial(ms), Targets(bs, ms));
  }

  /** The batch is sent, and the driver accepts it. */
  ghost predicate Succeeds(env: Env, target: seq<Row>) {
    AllPass(env, target, 0) && (target == [] || env.driver(0).Inserted?)
  }

  lemma OnceSave(bs: Chain, env: Env, ms: seq<Mutation>)
    requires |ms| == |bs| > 0 && Once(bs)
    ensures Save(bs, env, ms).0.Sized(|bs|)
    ensures var s, target, t := Initial(ms), Targets(bs, ms), Save(bs, env, ms).0;
            OnceOutcome(bs, env, 0, 0, s, target, t, Level(bs, env, 0, 0, s).1)
  {
    LevelOnce(bs, env, 0, 0, Initial(ms), Targets(bs, ms));
  }

  /** Exactly once: a batch is sent iff there is a builder and every check passes; then it is one
      batch, with one spec per builder, in order. */
  lemma ExactlyOnce(bs: Chain, env: Env, ms: seq<Mutation>)
    requires |ms| == |bs| && Once(bs)
    ensures var target := Targets(bs, ms);
            Save(bs, env, ms).0.batches ==
              if |bs| > 0 && AllPass(env, target, 0)
              then [seq(|bs|, j requires 0 <= j < |bs| => Some(target[j]))]
              else []
  {
    if |bs| > 0 {
      OnceSave(bs, env, ms);
      var target := Targets(bs, ms);
      assert Sent(Initial(ms), target, 0) == seq(|bs|, j requires 0 <= j < |bs| => Some(target[j]));
    }
  }

  /** All or nothing, the good half: on success node i comes from builder i, and every mutation is
      done and knows its ID. */
  lemma SuccessIsTotal(bs: Chain, env: Env, ms: seq<Mutation>)
    requires |ms| == |bs| && Once(bs)
    ensures var (t, r) := Save(bs, env, ms);
            var target := Targets(bs, ms);
            && (r.Nodes? <==> Succeeds(env, target))
            && (r.Nodes? ==>
                  && |r.nodes| == |t.mutations| == |bs|
                  && (forall j | 0 <= j < |bs| ::
                        && r.nodes[j] == Some(Node(Generated(env.driver(0), j), target[j]))
                        && t.mutations[j] == Mutation(target[j], true, Some(Generated(env.driver(0), j)))))
  {
    if |bs| > 0 {
      OnceSave(bs, env, ms);
    }
  }

  /** All or nothing, the bad half: on failure the caller gets the error of the first failing check
      or else the wrapped error of the driver, and no mutation changed its done flag or its ID. */
  lemma FailureIsTotal(bs: Chain, env: Env, ms: seq<Mutation>)
    requires |ms| == |bs| && Once(bs)
    requires Save(bs, env, ms).1.Refused?
    ensures var (t, r) := Save(bs, env, ms);
            var target := Targets(bs, ms);
            var k := FirstFail(env, target, 0);
            && (k < |bs| ==> r.error == ValidationError(env.check(target[k]).value))
            && (k == |bs| ==>
                  match env.driver(0)
                  case Rejected(message, constraint) =>
                    r.error == if constraint then ConstraintError(message) else BatchError(message)
                  case Inserted(_) => false)
            && |t.mutations| == |ms|
            && (forall j | 0 <= j < |ms| :: t.mutations[j].done == ms[j].done && t.mutations[j].id == ms[j].id)
  {
    OnceSave(bs, env, ms);
  }

  /** The IDs: node j has the ID that the driver returned in place j, and zero if it returned none. */
  lemma SavedIds(bs: Chain, env: Env, ms: seq<Mutation>, ids: seq<Option<int>>, j: nat)
    requires |ms| == |bs| && Once(bs) && Save(bs, env, ms).1.Nodes? && j < |bs| && env.driver(0) == Inserted(ids)
    ensures |Save(bs, env, ms).1.nodes| == |bs| && Save(bs, env, ms).1.nodes[j].Some?
    ensures var node := Save(bs, env, ms).1.nodes[j].value;
            node.id == if j < |ids| && ids[j].Some? then ids[j].value else 0
  {
    SuccessIsTotal(bs, env, ms);
  }

  // ---------------------------------------------------------------- what reaches the check

  /** A field has the value that the last hook setting it gives it ... */
  lemma {:induction false} LastHookSets(hooks: seq<Hook>, h: nat, k: nat, c: Column)
    requires h <= k < |hooks| && c in hooks[k].edit && forall n | k < n < |hooks| :: c !in hooks[n].edit
    ensures c in Edits(hooks, h) && Edits(hooks, h)[c] == hooks[k].edit[c]
    decreases |hooks| - h
  {
    if h < k {
      LastHookSets(hooks, h + 1, k, c);
    } else {
      NoHookSets(hooks, h + 1, c);
    }
  }

  lemma {:induction false} NoHookSets(hooks: seq<Hook>, h: nat, c: Column)
    requires h <= |hooks| && forall n | h <= n < |hooks| :: c !in hooks[n].edit
    ensures c !in Edits(hooks, h)
    decreases |hooks| - h
  {
    if h < |hooks| {
      NoHookSets(hooks, h + 1, c);
    }
  }

  /** ... and the one the caller gave it if no hook sets it. */
  lemma TargetAt(bs: Chain, ms: seq<Mutation>, j: nat, c: Column, k: nat)
    requires |ms| == |bs| && j < |bs|
    ensures (forall n | 0 <= n < |bs[j]| :: c !in bs[j][n].edit) ==>
              (c in Targets(bs, ms)[j] <==> c in ms[j].fields)
              && (c in ms[j].fields ==> Targets(bs, ms)[j][c] == ms[j].fields[c])
    ensures k < |bs[j]| && c in bs[j][k].edit && (forall n | k < n < |bs[j]| :: c !in bs[j][n].edit) ==>
              c in Targets(bs, ms)[j] && Targets(bs, ms)[j][c] == bs[j][k].edit[c]
  {
    if forall n | 0 <= n < |bs[j]| :: c !in bs[j][n].edit {
      NoHookSets(bs[j], 0, c);
    }
    if k < |bs[j]| && c in bs[j][k].edit && (forall n | k < n < |bs[j]| :: c !in bs[j][n].edit) {
      LastHookSets(bs[j], 0, k, c);
    }
  }

  /** One hook that calls on n times, among hooks that forward once. */
  lemma {:induction false} ProductOfOne(bs: Chain, i: nat, h: nat, a: nat, b: nat)
    requires i <= |bs| && (i < |bs| ==> h <= |bs[i]|) && a < |bs| && b < |bs[a]|
    requires forall j, k | 0 <= j < |bs| && 0 <= k < |bs[j]| && !(j == a && k == b) :: bs[j][k].forwards == 1
    ensures Product(bs, i, h) == if i < a || (i == a && h <= b) then bs[a][b].forwards else 1
    decreases |bs| - i, if i < |bs| then |bs[i]| - h else 0
  {
    if i < |bs| {
      if h < |bs[i]| {
        ProductOfOne(bs, i, h + 1, a, b);
      } else {
        ProductOfOne(bs, i + 1, 0, a, b);
      }
    }
  }

  /** A hook that retries n times, the others forwarding once, sends n batches if every check passes. */
  lemma RetrySends(bs: Chain, env: Env, ms: seq<Mutation>, a: nat, b: nat)
    requires |ms| == |bs| && a < |bs| && b < |bs[a]|
    requires forall j, k | 0 <= j < |bs| && 0 <= k < |bs[j]| && !(j == a && k == b) :: bs[j][k].forwards == 1
    ensures |Save(bs, env, ms).0.batches| ==
              if forall j | 0 <= j < |bs| :: env.check(Targets(bs, ms)[j]).None? then bs[a][b].forwards else 0
  {
    BatchCount(bs, env, ms);
    ProductOfOne(bs, 0, 0, a, b);
  }

  lemma ForwardStep(bs: Chain, env: Env, i: nat, h: nat, n: nat, s: State, last: Result)
    requires i < |bs| && h < |bs[i]| && s.Sized(|bs|) && n > 0
    ensures var next := Level(bs, env, i, h + 1, s);
            Forward(bs, env, i, h, n, s, last) == Forward(bs, env, i, h, n - 1, next.0, next.1)
  {
  }

  /** Of several calls of the next mutator the last one decides what the hook returns. */
  ghost predicate LastDecides(bs: Chain, env: Env, i: nat, h: nat, n: nat, s: State, own: Result)
    requires i < |bs| && h < |bs[i]| && s.Sized(|bs|)
  {
    Forward(bs, env, i, h, n + 1, s, own) == Level(bs, env, i, h + 1, Forward(bs, env, i, h, n, s, own).0)
  }

  lemma OneCallDecides(bs: Chain, env: Env, i: nat, h: nat, s: State, own: Result)
    requires i < |bs| && h < |bs[i]| && s.Sized(|bs|)
    ensures LastDecides(bs, env, i, h, 0, s, own)
  {
  }

  lemma NextCallDecides(bs: Chain, env: Env, i: nat, h: nat, n: nat, s: State, own: Result, inner: (State, Result))
    requires i < |bs| && h < |bs[i]| && s.Sized(|bs|) && inner == Level(bs, env, i, h + 1, s) && n > 0
    requires LastDecides(bs, env, i, h, n - 1, inner.0, inner.1)
    ensures LastDecides(bs, env, i, h, n, s, own)
  {
    ForwardStep(bs, env, i, h, n + 1, s, own);
    ForwardStep(bs, env, i, h, n, s, own);
  }

  lemma {:induction false} LastInnerResult(bs: Chain, env: Env, i: nat, h: nat, n: nat, s: State, own: Result)
    requires i < |bs| && h < |bs[i]| && s.Sized(|bs|)
    ensures LastDecides(bs, env, i, h, n, s, own)
    decreases n
  {
    if n == 0 {
      OneCallDecides(bs, env, i, h, s, own);
    } else {
      var inner := Level(bs, env, i, h + 1, s);
      LastInnerResult(bs, env, i, h, n - 1, inner.0, inner.1);
      NextCallDecides(bs, env, i, h, n, s, own, inner);
    }
  }

  /** A hook that never calls on ends its chain with its own result: nothing is checked or sent. */
  lemma SilentHook(bs: Chain, env: Env, i: nat, h: nat, s: State)
    requires i < |bs| && h < |bs[i]| && s.Sized(|bs|) && bs[i][h].forwards == 0
    ensures var (t, r) := Level(bs, env, i, h, s);
            && r == bs[i][h].own && t.batches == s.batches && t.nodes == s.nodes && t.specs == s.specs
            && t.trace == s.trace + [Enter(i, h)] + [Exit(i, h)]
  {
    var t := SetFields(s.(trace := s.trace + [Enter(i, h)]), i, s.mutations[i].fields + bs[i][h].edit);
    assert Forward(bs, env, i, h, 0, t, bs[i][h].own) == (t, bs[i][h].own);
  }

  /** The onion: on a run in which every check passes, the hooks are entered builder by builder and
      hook by hook, then comes the batch, then the hooks are left in exactly the reverse order. */
  lemma Onion(bs: Chain, env: Env, ms: seq<Mutation>)
    requires |ms| == |bs| > 0 && Once(bs)
    ensures var target, t := Targets(bs, ms), Save(bs, env, ms).0;
            var entries := Enters(bs, 0, 0, FirstFail(env, target, 0));
            t.trace == entries + (if AllPass(env, target, 0) then [Batch] else []) + Mirror(entries)
  {
    OnceSave(bs, env, ms);
  }

  predicate Before(i: nat, h: nat, e: Event) {
    e.Enter? && (i < e.builder || (i == e.builder && h < e.hook))
  }

  lemma EntersStep(bs: Chain, i: nat, h: nat, k: nat)
    requires i < |bs| && h <= |bs[i]| && i <= k
    ensures Enters(bs, i, h, k) ==
              if h == |bs[i]| then Enters(bs, i + 1, 0, k) else [Enter(i, h)] + Enters(bs, i, h + 1, k)
  {
  }

  ghost predicate AllBehind(a: nat, b: nat, es: seq<Event>) {
    forall p | 0 <= p < |es| :: Before(a, b, es[p])
  }

  lemma BehindCons(a: nat, b: nat, i: nat, h: nat, rest: seq<Event>)
    requires AllBehind(a, b, rest) && Before(a, b, Enter(i, h))
    ensures AllBehind(a, b, [Enter(i, h)] + rest)
  {
  }

  lemma NotBehind(a: nat, b: nat, es: seq<Event>)
    requires AllBehind(a, b, es)
    ensures !Has(es, a, b)
  {
  }

  lemma {:induction false} EntersAfter(bs: Chain, i: nat, h: nat, k: nat, a: nat, b: nat)
    requires i <= |bs| && (i < |bs| ==> h <= |bs[i]|)
    requires a < i || (a == i && b < h)
    ensures AllBehind(a, b, Enters(bs, i, h, k))
    decreases |bs| - i, if i < |bs| then |bs[i]| - h else 0
  {
    if i < |bs| && i <= k {
      EntersStep(bs, i, h, k);
      if h == |bs[i]| {
        EntersAfter(bs, i + 1, 0, k, a, b);
      } else {
        EntersAfter(bs, i, h + 1, k, a, b);
        BehindCons(a, b, i, h, Enters(bs, i, h + 1, k));
      }
    }
  }

  ghost predicate InOrder(es: seq<Event>) {
    && (forall p | 0 <= p < |es| :: es[p].Enter?)
    && (forall p, q | 0 <= p < q < |es| :: Before(es[p].builder, es[p].hook, es[q]))
  }

  lemma InOrderCons(i: nat, h: nat, rest: seq<Event>)
    requires InOrder(rest) && AllBehind(i, h, rest)
    ensures InOrder([Enter(i, h)] + rest)
  {
    var es := [Enter(i, h)] + rest;
    forall p, q | 0 <= p < q < |es| ensures es[p].Enter? && Before(es[p].builder, es[p].hook, es[q]) {
      assert es[q] == rest[q - 1];
      assert p > 0 ==> es[p] == rest[p - 1];
    }
  }

  /** The entries are in builder order and, within a builder, in hook order. */
  lemma {:induction false} EntersSorted(bs: Chain, i: nat, h: nat, k: nat)
    requires i <= |bs| && (i < |bs| ==> h <= |bs[i]|)
    ensures InOrder(Enters(bs, i, h, k))
    decreases |bs| - i, if i < |bs| then |bs[i]| - h else 0
  {
    if i < |bs| && i <= k {
      EntersStep(bs, i, h, k);
      if h == |bs[i]| {
        EntersSorted(bs, i + 1, 0, k);
      } else {
        EntersSorted(bs, i, h + 1, k);
        EntersAfter(bs, i, h + 1, k, i, h);
        InOrderCons(i, h, Enters(bs, i, h + 1, k));
      }
    }
  }

  ghost predicate Has(es: seq<Event>, a: nat, b: nat) {
    Enter(a, b) in es
  }

  lemma HasCons(i: nat, h: nat, rest: seq<Event>, a: nat, b: nat)
    ensures Has([Enter(i, h)] + rest, a, b) <==> (i == a && h == b) || Has(rest, a, b)
  {
  }

  /** Exactly the hooks of the builders up to k are entered. */
  lemma {:induction false} EntersAll(bs: Chain, i: nat, h: nat, k: nat, a: nat, b: nat)
    requires i <= |bs| && (i < |bs| ==> h <= |bs[i]|)
    requires i < a || (i == a && h <= b)
    ensures Has(Enters(bs, i, h, k), a, b) <==> a <= k && a < |bs| && b < |bs[a]|
    decreases |bs| - i, if i < |bs| then |bs[i]| - h else 0
  {
    if i < |bs| && i <= k {
      EntersStep(bs, i, h, k);
      if h < |bs[i]| {
        HasCons(i, h, Enters(bs, i, h + 1, k), a, b);
        if !(i == a && h == b) {
          EntersAll(bs, i, h + 1, k, a, b);
        }
      } else if i < a {
        EntersAll(bs, i + 1, 0, k, a, b);
      } else {
        EntersAfter(bs, i + 1, 0, k, a, b);
        NotBehind(a, b, Enters(bs, i + 1, 0, k));
      }
    }
  }

  /** Position by position, the exits mirror the entries. */
  lemma {:induction false} MirrorAt(es: seq<Event>, p: nat)
    requires p < |es| && forall e | e in es :: e.Enter?
    ensures |Mirror(es)| == |es|
    ensures Mirror(es)[|es| - 1 - p] == Exit(es[p].builder, es[p].hook)
  {
    if |es| == 1 {
      assert Mirror(es[1..]) == [];
    } else if p == 0 {
      MirrorAt(es[1..], 0);
    } else {
      MirrorAt(es[1..], p - 1);
    }
  }
}
