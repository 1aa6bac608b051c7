/** What a sequence of calls on a query builder asks for, call by call. */
module BuilderCalls {
  import opened Schema
  import opened Store
  import opened Builders

  function Wheres(calls: seq<Call>): seq<Pred> {
    if calls == [] then [] else (if calls[0].CallWhere? then [calls[0].pred] else []) + Wheres(calls[1..])
  }

  function Terms(calls: seq<Call>): seq<OrderTerm> {
    if calls == [] then [] else (if calls[0].CallOrder? then [calls[0].term] else []) + Terms(calls[1..])
  }

  function Selected(calls: seq<Call>): seq<Column> {
    if calls == [] then [] else (if calls[0].CallSelect? then calls[0].fields else []) + Selected(calls[1..])
  }

  function Locks(calls: seq<Call>): seq<Modifier> {
    if calls == [] then [] else (if calls[0].CallLock? then [calls[0].modifier] else []) + Locks(calls[1..])
  }

  ghost predicate Collects(core: Core, built: Core, ps: seq<Pred>, os: seq<OrderTerm>, fs: seq<Column>,
                           ms: seq<Modifier>)
  {
    && built.predicates == core.predicates + ps && built.order == core.order + os
    && built.fields == core.fields + fs && built.modifiers == core.modifiers + ms
    && built.inters == core.inters
  }

  lemma CallCollects(core: Core, call: Call)
    ensures Collects(core, Apply(core, call), if call.CallWhere? then [call.pred] else [],
                     if call.CallOrder? then [call.term] else [], if call.CallSelect? then call.fields else [],
                     if call.CallLock? then [call.modifier] else [])
  {
  }

  lemma CollectsTwice(core: Core, one: Core, two: Core, ps: seq<Pred>, os: seq<OrderTerm>, fs: seq<Column>,
                      ms: seq<Modifier>, ps': seq<Pred>, os': seq<OrderTerm>, fs': seq<Column>, ms': seq<Modifier>)
    requires Collects(core, one, ps, os, fs, ms) && Collects(one, two, ps', os', fs', ms')
    ensures Collects(core, two, ps + ps', os + os', fs + fs', ms + ms')
  {
  }

  /** Every predicate, order term, column and lock that was asked for is kept, in the order of the
      calls, after those that were there; interceptors are not touched. */
  lemma {:induction false} CallsCollect(core: Core, calls: seq<Call>)
    ensures Collects(core, ApplyAll(core, calls), Wheres(calls), Terms(calls), Selected(calls), Locks(calls))
    decreases |calls|
  {
    if calls != [] {
      var call, rest := calls[0], calls[1..];
      CallCollects(core, call);
      CallsCollect(Apply(core, call), rest);
      CollectsTwice(core, Apply(core, call), ApplyAll(Apply(core, call), rest),
                    if call.CallWhere? then [call.pred] else [], if call.CallOrder? then [call.term] else [],
                    if call.CallSelect? then call.fields else [], if call.CallLock? then [call.modifier] else [],
                    Wheres(rest), Terms(rest), Selected(rest), Locks(rest));
    }
  }

  /** LIMIT, OFFSET and DISTINCT are those of the last call that says something of them: i is the
      place of that call. */
  lemma {:induction false} LastCallCounts(core: Core, calls: seq<Call>, i: nat)
    requires i < |calls|
    ensures calls[i].CallLimit? && (forall j | i < j < |calls| :: !calls[j].CallLimit?) ==>
              ApplyAll(core, calls).limit == Some(calls[i].limit)
    ensures calls[i].CallOffset? && (forall j | i < j < |calls| :: !calls[j].CallOffset?) ==>
              ApplyAll(core, calls).offset == Some(calls[i].offset)
    ensures (calls[i].CallUnique? || (calls[i].CallLock? && calls[i].postgres))
              && (forall j | i < j < |calls| :: !calls[j].CallUnique? && !(calls[j].CallLock? && calls[j].postgres)) ==>
              ApplyAll(core, calls).unique == Some(calls[i].CallUnique? && calls[i].unique)
    decreases |calls|
  {
    var rest := calls[1..];
    assert forall j | 1 <= j < |calls| :: calls[j] == rest[j - 1];
    if i > 0 {
      LastCallCounts(Apply(core, calls[0]), rest, i - 1);
    } else {
      NoCallKeeps(Apply(core, calls[0]), rest);
    }
  }

  /** Without such a call they stay as they were. */
  lemma {:induction false} NoCallKeeps(core: Core, calls: seq<Call>)
    ensures (forall j | 0 <= j < |calls| :: !calls[j].CallLimit?) ==> ApplyAll(core, calls).limit == core.limit
    ensures (forall j | 0 <= j < |calls| :: !calls[j].CallOffset?) ==> ApplyAll(core, calls).offset == core.offset
    ensures (forall j | 0 <= j < |calls| :: !calls[j].CallUnique? && !(calls[j].CallLock? && calls[j].postgres)) ==>
              ApplyAll(core, calls).unique == core.unique
    decreases |calls|
  {
    if calls != [] {
      var rest := calls[1..];
      assert forall j | 1 <= j < |calls| :: calls[j] == rest[j - 1];
      NoCallKeeps(Apply(core, calls[0]), rest);
    }
  }
}
