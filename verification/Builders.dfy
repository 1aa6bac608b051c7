/** The query builders: objects that the caller configures step by step and may clone. */
module Builders {
  import opened Schema
  import opened Store
  import opened EagerSpec

  class QueryContext {
    var limit: Option<nat>
    var offset: Option<nat>
    var unique: Option<bool>
    var fields: seq<Column>

    constructor ()
      ensures limit == None && offset == None && unique == None && fields == []
    {
      limit, offset, unique, fields := None, None, None, [];
    }

    method Clone() returns (c: QueryContext)
      ensures fresh(c)
      ensures c.limit == limit && c.offset == offset && c.unique == unique && c.fields == fields
    {
      c := new QueryContext();
      c.limit, c.offset, c.unique, c.fields := limit, offset, unique, fields;
    }
  }

  // ---------------------------------------------------------------- builder calls and their meaning

  /** The calls every generated builder has. */
  datatype Call =
    | CallWhere(pred: Pred)
    | CallLimit(limit: nat)
    | CallOffset(offset: nat)
    | CallUnique(unique: bool)
    | CallOrder(term: OrderTerm)
    | CallSelect(fields: seq<Column>)
    | CallLock(modifier: Modifier, postgres: bool)  // ForUpdate, ForShare, and the driver's dialect

  function Apply(core: Core, call: Call): Core {
    match call
    case CallWhere(p) => core.(predicates := core.predicates + [p])
    case CallLimit(n) => core.(limit := Some(n))
    case CallOffset(n) => core.(offset := Some(n))
    case CallUnique(b) => core.(unique := Some(b))
    case CallOrder(o) => core.(order := core.order + [o])
    case CallSelect(fs) => core.(fields := core.fields + fs)
    case CallLock(m, postgres) =>
      core.(modifiers := core.modifiers + [m], unique := if postgres then Some(false) else core.unique)
  }

  function ApplyAll(core: Core, calls: seq<Call>): Core
    decreases |calls|
  {
    if calls == [] then core else ApplyAll(Apply(core, calls[0]), calls[1..])
  }

  /** The calls of a builder that has edges: one on the builder itself, a With* call that attaches
      a new sub-builder (carrying the client's interceptors) configured by the given calls, or
      calls on a sub-builder that is already attached and that the caller still holds. */
  datatype EdgeCall =
    | Own(call: Call)
    | With(edge: Edge, inters: seq<Interceptor>, opts: seq<EdgeCall>)
    | On(edge: Edge, opts: seq<EdgeCall>)

  function NewRequest(inters: seq<Interceptor>): Request {
    Request(EmptyCore.(inters := inters), map[])
  }

  function Call1(q: Request, call: EdgeCall): Request
    decreases call, 0
  {
    match call
    case Own(c) => q.(core := Apply(q.core, c))
    case With(e, inters, opts) => q.(with := q.with[e := CallAll(NewRequest(inters), opts)])
    case On(e, opts) => if e in q.with then q.(with := q.with[e := CallAll(q.with[e], opts)]) else q
  }

  function CallAll(q: Request, calls: seq<EdgeCall>): Request
    decreases calls, 0
  {
    if calls == [] then q else CallAll(Call1(q, calls[0]), calls[1..])
  }

  // ---------------------------------------------------------------- builders

  /** The sub-builders attached by With* calls live in R, are valid, share no state, and denote
      the given sub-requests. */
  ghost predicate SubsValid(w: map<Edge, QueryBuilder>, R: set<object>, d: map<Edge, Request>)
    reads R
    decreases R, 1
  {
    && d.Keys == w.Keys
    && (forall e | e in w :: w[e] in R)
    && (forall e | e in w :: w[e].Repr <= R && w[e].Valid() && w[e].denotes == d[e])
    && (forall e, f | e in w && f in w && e != f :: w[e].Repr !! w[f].Repr)
  }

  lemma AttachLemma(w: map<Edge, QueryBuilder>, R: set<object>, d: map<Edge, Request>, e: Edge, b: QueryBuilder)
    requires SubsValid(w, R, d) && b.Valid() && b.Repr !! R
    ensures SubsValid(w[e := b], R + b.Repr, d[e := b.denotes])
  {
  }

  /** The generated query builder of an entity; AccountQuery is the one this project runs.
      A With* pointer that is not nil is an entry of the map. */
  class QueryBuilder {
    var ctx: QueryContext
    var predicates: seq<Pred>
    var inters: seq<Interceptor>
    var order: seq<OrderTerm>
    var modifiers: seq<Modifier>
    var with: map<Edge, QueryBuilder>
    ghost var SubRepr: set<object>
    ghost var Repr: set<object>
    ghost var denotes: Request  // the request that running this builder would carry out

    ghost predicate Valid()
      reads this, Repr
      decreases Repr, 0
      ensures Valid() ==> this in Repr && ctx in Repr
    {
      && Repr == {this, ctx} + SubRepr
      && this !in SubRepr && ctx !in SubRepr
      && denotes.core == OwnCore()
      && SubsValid(with, SubRepr, denotes.with)
    }

    function OwnCore(): Core
      reads this, ctx
    {
      Core(predicates, inters, order, ctx.limit, ctx.offset, ctx.unique, ctx.fields, modifiers)
    }

    constructor (inters: seq<Interceptor>)
      ensures Valid() && fresh(Repr) && denotes == NewRequest(inters)
    {
      this.ctx := new QueryContext();
      this.predicates, this.inters, this.order, this.modifiers := [], inters, [], [];
      this.with := map[];
      this.SubRepr := {};
      this.Repr := {this, this.ctx};
      this.denotes := NewRequest(inters);
    }

    /** Where, Limit, Offset, Unique, Order, Select, ForUpdate and ForShare. */
    method Do(call: Call)
      requires Valid()
      modifies this, ctx
      ensures Valid() && Repr == old(Repr) && SubRepr == old(SubRepr) && with == old(with) && ctx == old(ctx)
      ensures denotes == old(denotes).(core := Apply(old(denotes).core, call))
    {
      match call {
        case CallWhere(p) => predicates := predicates + [p];
        case CallLimit(n) => ctx.limit := Some(n);
        case CallOffset(n) => ctx.offset := Some(n);
        case CallUnique(b) => ctx.unique := Some(b);
        case CallOrder(o) => order := order + [o];
        case CallSelect(fs) => ctx.fields := ctx.fields + fs;
        case CallLock(m, postgres) =>
          Lock(m, postgres);
          return;
      }
      denotes := denotes.(core := Apply(denotes.core, call));
    }

    /** ForUpdate and ForShare; on Postgres they also turn DISTINCT off. */
    method Lock(m: Modifier, postgres: bool)
      requires Valid()
      modifies this, ctx
      ensures Valid() && Repr == old(Repr) && SubRepr == old(SubRepr) && with == old(with) && ctx == old(ctx)
      ensures denotes == old(denotes).(core := Apply(old(denotes).core, CallLock(m, postgres)))
    {
      if postgres {
        ctx.unique := Some(false);
      }
      modifiers := modifiers + [m];
      denotes := denotes.(core := Apply(denotes.core, CallLock(m, postgres)));
    }

    /** The last step of a With* call. */
    method Attach(e: Edge, b: QueryBuilder)
      requires Valid() && b.Valid() && b.Repr !! Repr
      modifies this
      ensures Valid() && Repr == old(Repr) + b.Repr
      ensures denotes == old(denotes).(with := old(denotes).with[e := b.denotes])
    {
      AttachLemma(with, SubRepr, denotes.with, e, b);
      with := with[e := b];
      SubRepr := SubRepr + b.Repr;
      Repr := Repr + b.Repr;
      denotes := denotes.(with := denotes.with[e := b.denotes]);
    }
  }

  // ---------------------------------------------------------------- calls on builders

  /** One builder call. */
  method Perform1(b: QueryBuilder, call: EdgeCall)
    requires b.Valid()
    modifies b.Repr
    ensures b.Valid() && fresh(b.Repr - old(b.Repr)) && old(b.Repr) <= b.Repr
    ensures b.denotes == Call1(old(b.denotes), call)
    decreases call, 0
  {
    match call {
      case Own(c) => b.Do(c);
      case With(e, inters, opts) =>
        var sub := new QueryBuilder(inters);
        Perform(sub, opts);
        b.Attach(e, sub);
      case On(e, opts) =>
        if e in b.with {
          PerformOn(b, e, opts);
        }
    }
  }

  /** Calls on the sub-builder attached to edge e. */
  method PerformOn(b: QueryBuilder, e: Edge, opts: seq<EdgeCall>)
    requires b.Valid() && e in b.with
    modifies b.Repr
    ensures b.Valid() && fresh(b.Repr - old(b.Repr)) && old(b.Repr) <= b.Repr
    ensures e in old(b.denotes).with
    ensures b.denotes == old(b.denotes).(with := old(b.denotes).with[e := CallAll(old(b.denotes).with[e], opts)])
    decreases opts, 1
  {
    Perform(b.with[e], opts);
    ReattachLemma(b.with, b.SubRepr, b.denotes.with, e);
    Reattach(b, e);
  }

  /** Every sub-builder but the one of edge e is still in order and apart from it. */
  ghost predicate OthersValid(w: map<Edge, QueryBuilder>, R: set<object>, d: map<Edge, Request>, e: Edge)
    requires e in w
    reads R, w[e]
  {
    && d.Keys == w.Keys
    && (forall f | f in w && f != e :: w[f] in R)
    && (forall f | f in w && f != e :: w[f].Repr <= R && w[f].Valid() && w[f].denotes == d[f] && w[f].Repr !! w[e].Repr)
    && (forall f, g | f in w && g in w && f != g && f != e && g != e :: w[f].Repr !! w[g].Repr)
  }

  lemma ReattachLemma(w: map<Edge, QueryBuilder>, R: set<object>, d: map<Edge, Request>, e: Edge)
    requires e in w && OthersValid(w, R, d, e) && w[e].Valid()
    ensures SubsValid(w, R + w[e].Repr, d[e := w[e].denotes])
  {
  }

  /** Ghost bookkeeping after calls on the sub-builder of edge e. */
  ghost method Reattach(b: QueryBuilder, e: Edge)
    requires e in b.with && b.with[e].Valid()
    requires b.Repr == {b, b.ctx} + b.SubRepr && b !in b.SubRepr && b.ctx !in b.SubRepr && b.denotes.core == b.OwnCore()
    requires b !in b.with[e].Repr && b.ctx !in b.with[e].Repr
    requires SubsValid(b.with, b.SubRepr + b.with[e].Repr, b.denotes.with[e := b.with[e].denotes])
    modifies b
    ensures b.Valid() && b.Repr == old(b.Repr) + b.with[e].Repr && b.with == old(b.with)
    ensures b.denotes == old(b.denotes).(with := old(b.denotes).with[e := b.with[e].denotes])
  {
    var sub := b.with[e];
    var R, d := b.SubRepr + sub.Repr, b.denotes.with[e := sub.denotes];
    assert b !in R;
    b.Repr := b.Repr + sub.Repr;
    b.denotes := b.denotes.(with := d);
    b.SubRepr := R;
  }

  method Perform(b: QueryBuilder, calls: seq<EdgeCall>)
    requires b.Valid()
    modifies b.Repr
    ensures b.Valid() && fresh(b.Repr - old(b.Repr)) && old(b.Repr) <= b.Repr
    ensures b.denotes == CallAll(old(b.denotes), calls)
    decreases calls, 0
  {
    ghost var all := CallAll(b.denotes, calls);
    for i := 0 to |calls|
      invariant b.Valid() && fresh(b.Repr - old(b.Repr)) && old(b.Repr) <= b.Repr
      invariant CallAll(b.denotes, calls[i..]) == all
    {
      Perform1(b, calls[i]);
      assert calls[i..][1..] == calls[i + 1..];
    }
  }

  // ---------------------------------------------------------------- Clone

  /** The request with every lock modifier removed, at every level. */
  ghost function DropModifiers(q: Request): Request
    decreases q
  {
    Request(q.core.(modifiers := []), map e | e in q.with :: DropModifiers(q.with[e]))
  }

  ghost predicate NoModifiers(q: Request)
    decreases q
  {
    q.core.modifiers == [] && forall e | e in q.with :: NoModifiers(q.with[e])
  }

  /** Clone denotes the same query exactly when no builder of the tree carries a modifier. */
  lemma {:induction false} CloneDenotesSame(q: Request)
    ensures DropModifiers(q) == q <==> NoModifiers(q)
    decreases q
  {
    forall e | e in q.with ensures DropModifiers(q.with[e]) == q.with[e] <==> NoModifiers(q.with[e]) {
      CloneDenotesSame(q.with[e]);
    }
    if NoModifiers(q) {
      assert DropModifiers(q).with == q.with;
    }
    if DropModifiers(q) == q {
      assert forall e | e in q.with :: DropModifiers(q).with[e] == q.with[e];
    }
  }

  /** A deep copy: every sub-builder and every context is duplicated, modifiers are not copied. */
  method Clone(b: QueryBuilder) returns (c: QueryBuilder)
    requires b.Valid()
    ensures c.Valid() && fresh(c.Repr)
    ensures c.denotes == DropModifiers(b.denotes)
    decreases b.Repr, 1
  {
    c := CloneOwn(b);
    CloneEdges(b.with, b.with.Keys, b.SubRepr, b.denotes.with, c);
    DropWhole(b.denotes);
  }

  ghost function DropAll(d: map<Edge, Request>, edges: set<Edge>): map<Edge, Request>
    requires edges <= d.Keys
  {
    map e | e in edges :: DropModifiers(d[e])
  }

  lemma DropWhole(q: Request)
    ensures map[] + DropAll(q.with, q.with.Keys) == DropModifiers(q).with
  {
  }

  lemma DropStep(d: map<Edge, Request>, edges: set<Edge>, e: Edge, before: map<Edge, Request>)
    requires e in edges && edges <= d.Keys
    ensures before[e := DropModifiers(d[e])] + DropAll(d, edges - {e}) == before + DropAll(d, edges)
  {
  }

  /** The With* pointers of a clone, one edge at a time. */
  method CloneEdges(w: map<Edge, QueryBuilder>, edges: set<Edge>, ghost R: set<object>, ghost d: map<Edge, Request>,
                    c: QueryBuilder)
    requires c !in R && c.Valid() && d.Keys == w.Keys && edges <= w.Keys
    requires forall e | e in edges :: w[e].Repr <= R && w[e].Valid() && w[e].denotes == d[e]
    modifies c
    ensures c.Valid() && fresh(c.Repr - old(c.Repr))
    ensures c.denotes == old(c.denotes).(with := old(c.denotes).with + DropAll(d, edges))
    decreases R, 3, edges
  {
    if edges == {} {
      assert c.denotes.with + DropAll(d, edges) == c.denotes.with;
    } else {
      var e :| e in edges;
      DropStep(d, edges, e, c.denotes.with);
      CloneEdge(w[e], e, c);
      CloneEdges(w, edges - {e}, R, d, c);
    }
  }

  /** One With* pointer of a clone. */
  method CloneEdge(sub: QueryBuilder, e: Edge, c: QueryBuilder)
    requires sub.Valid() && c.Valid()
    modifies c
    ensures c.Valid() && fresh(c.Repr - old(c.Repr))
    ensures c.denotes == old(c.denotes).(with := old(c.denotes).with[e := DropModifiers(old(sub.denotes))])
    decreases sub.Repr, 2
  {
    var copy := Clone(sub);
    c.Attach(e, copy);
  }

  method CloneOwn(b: QueryBuilder) returns (c: QueryBuilder)
    requires b.Valid()
    ensures c.Valid() && fresh(c.Repr)
    ensures c.denotes == Request(b.denotes.core.(modifiers := []), map[])
  {
    c := new QueryBuilder(b.inters);
    var ctx := b.ctx.Clone();
    c.ctx, c.order, c.predicates := ctx, b.order, b.predicates;
    c.SubRepr := {};
    c.Repr := {c, c.ctx};
    c.denotes := c.denotes.(core := c.OwnCore());
  }

  // ---------------------------------------------------------------- isolation

  /** The calls of an interleaved sequence that address one of the two builders. */
  function Side(calls: seq<(bool, EdgeCall)>, clone: bool): seq<EdgeCall> {
    if calls == [] then []
    else if calls[0].0 == clone then [calls[0].1] + Side(calls[1..], clone)
    else Side(calls[1..], clone)
  }

  lemma SideStep(q: Request, calls: seq<(bool, EdgeCall)>, clone: bool)
    requires calls != []
    ensures CallAll(q, Side(calls, clone))
         == CallAll(if calls[0].0 == clone then Call1(q, calls[0].1) else q, Side(calls[1..], clone))
  {
    if calls[0].0 == clone {
      assert Side(calls, clone)[1..] == Side(calls[1..], clone);
    }
  }

  /** Two builders without shared state: calls on one never show in what the other denotes. */
  method Interleave(b: QueryBuilder, c: QueryBuilder, calls: seq<(bool, EdgeCall)>)
    requires b.Valid() && c.Valid() && b.Repr !! c.Repr
    modifies b.Repr, c.Repr
    ensures b.Valid() && c.Valid() && b.Repr !! c.Repr
    ensures b.denotes == CallAll(old(b.denotes), Side(calls, false))
    ensures c.denotes == CallAll(old(c.denotes), Side(calls, true))
    decreases |calls|
  {
    if calls != [] {
      SideStep(b.denotes, calls, false);
      SideStep(c.denotes, calls, true);
      if calls[0].0 {
        Perform1(c, calls[0].1);
      } else {
        Perform1(b, calls[0].1);
      }
      Interleave(b, c, calls[1..]);
    }
  }

  /** Cloning isolates: whatever is then called on either builder, in any order and at any depth,
      each of the two denotes what its own calls alone would give. */
  method CloneThenCall(b: QueryBuilder, calls: seq<(bool, EdgeCall)>) returns (c: QueryBuilder)
    requires b.Valid()
    modifies b.Repr
    ensures b.Valid() && c.Valid() && b.Repr !! c.Repr
    ensures b.denotes == CallAll(old(b.denotes), Side(calls, false))
    ensures c.denotes == CallAll(DropModifiers(old(b.denotes)), Side(calls, true))
  {
    c := Clone(b);
    Interleave(b, c, calls);
  }
}
