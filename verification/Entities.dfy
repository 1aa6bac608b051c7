/** Loaded entities on the heap, and when a heap graph shows a given entity tree. */
module Entities {
  import opened Schema
  import opened EagerSpec

  /** A loaded Group, Proxy, UsageLog or AccountGroup: an entity without eager edges here. */
  class Leaf {
    const fields: Row

    constructor (fields: Row)
      ensures this.fields == fields
    {
      this.fields := fields;
    }
  }

  /** The relations of an account; slots are overwritten in place by the loaders. */
  datatype Edges = Edges(
    groups: Slice<Leaf>,
    proxy: Leaf?,
    parent: Account?,
    children: Slice<Account>,
    usageLogs: Slice<Leaf>,
    accountGroups: Slice<Leaf>,
    loadedTypes: seq<bool>)

  class Account {
    const fields: Row
    var edges: Edges

    constructor (fields: Row, loadedTypes: seq<bool>)
      ensures this.fields == fields
      ensures edges == Edges(Nil, null, null, Nil, Nil, Nil, loadedTypes)
    {
      this.fields := fields;
      this.edges := Edges(Nil, null, null, Nil, Nil, Nil, loadedTypes);
    }
  }

  /** Which list of leaf neighbours a loader fills: the init and assign closures it is given. */
  datatype Slot = GroupsSlot | UsageLogsSlot | AccountGroupsSlot

  function Get(e: Edges, s: Slot): Slice<Leaf> {
    match s
    case GroupsSlot => e.groups
    case UsageLogsSlot => e.usageLogs
    case AccountGroupsSlot => e.accountGroups
  }

  function Set(e: Edges, s: Slot, l: Slice<Leaf>): (e': Edges)
    ensures Get(e', s) == l
  {
    match s
    case GroupsSlot => e.(groups := l)
    case UsageLogsSlot => e.(usageLogs := l)
    case AccountGroupsSlot => e.(accountGroups := l)
  }

  /** Filling a slot twice is filling it with the second value. */
  lemma SetTwice(e: Edges, s: Slot, l: Slice<Leaf>, m: Slice<Leaf>)
    ensures Set(Set(e, s, l), s, m) == Set(e, s, m)
  {
  }

  /** append on a Go slice: appending to nil gives a one-element list. */
  function Append<T>(s: Slice<T>, x: T): Slice<T> {
    if s.Nil? then Items([x]) else Items(s.items + [x])
  }

  function LeafRows(ls: seq<Leaf>): (rows: seq<Row>)
    ensures |rows| == |ls|
    ensures forall i | 0 <= i < |ls| :: rows[i] == ls[i].fields
  {
    seq(|ls|, i requires 0 <= i < |ls| => ls[i].fields)
  }

  function NodeRows(nodes: seq<Account>): (rows: seq<Row>)
    ensures |rows| == |nodes|
    ensures forall i | 0 <= i < |nodes| :: rows[i] == nodes[i].fields
  {
    seq(|nodes|, i requires 0 <= i < |nodes| => nodes[i].fields)
  }

  ghost predicate Distinct(nodes: seq<Account>) {
    forall i, j | 0 <= i < j < |nodes| :: nodes[i] != nodes[j]
  }

  /** The loaders keep one node per ID: the last one. */
  ghost predicate Owns(nodes: seq<Account>, i: nat)
    requires i < |nodes|
  {
    LastHit(IdKeys(NodeRows(nodes)), Some(IdOf(nodes[i].fields))) == i
  }

  // ---------------------------------------------------------------- edge accessors

  /** The value of an edge, or why there is none. */
  datatype EdgeResult<+T> = Found(value: T) | NotFound | NotLoaded

  function ProxyOrErr(e: Edges): EdgeResult<Leaf>
    requires |e.loadedTypes| == 6
  {
    if e.proxy != null then Found(e.proxy)
    else if e.loadedTypes[1] then NotFound
    else NotLoaded
  }

  function ParentOrErr(e: Edges): EdgeResult<Account>
    requires |e.loadedTypes| == 6
  {
    if e.parent != null then Found(e.parent)
    else if e.loadedTypes[2] then NotFound
    else NotLoaded
  }

  /** The edges that are lists are there, possibly empty, if they were loaded. */
  function GroupsOrErr(e: Edges): EdgeResult<Slice<Leaf>>
    requires |e.loadedTypes| == 6
  {
    if e.loadedTypes[0] then Found(e.groups) else NotLoaded
  }

  function ChildrenOrErr(e: Edges): EdgeResult<Slice<Account>>
    requires |e.loadedTypes| == 6
  {
    if e.loadedTypes[3] then Found(e.children) else NotLoaded
  }

  function UsageLogsOrErr(e: Edges): EdgeResult<Slice<Leaf>>
    requires |e.loadedTypes| == 6
  {
    if e.loadedTypes[4] then Found(e.usageLogs) else NotLoaded
  }

  function AccountGroupsOrErr(e: Edges): EdgeResult<Slice<Leaf>>
    requires |e.loadedTypes| == 6
  {
    if e.loadedTypes[5] then Found(e.accountGroups) else NotLoaded
  }

  // ---------------------------------------------------------------- heap graph and entity tree

  ghost predicate ShowsLeaves(s: Slice<Leaf>, v: Slice<Row>) {
    match (s, v)
    case (Nil, Nil) => true
    case (Items(ls), Items(rows)) => LeafRows(ls) == rows
    case _ => false
  }

  ghost predicate ShowsLeaf(l: Leaf?, v: Option<Row>) {
    if l == null then v.None? else v == Some(l.fields)
  }

  /** Unfolding the graph below a, inside the region R, gives exactly the tree v. */
  ghost predicate Shows(a: Account, v: View, R: set<Account>)
    reads R
    decreases v
  {
    && a in R
    && a.fields == v.fields
    && a.edges.loadedTypes == v.loaded
    && ShowsLeaves(a.edges.groups, v.groups)
    && ShowsLeaf(a.edges.proxy, v.proxy)
    && (v.parent.None? ==> a.edges.parent == null)
    && (v.parent.Some? ==> a.edges.parent != null && Shows(a.edges.parent, v.parent.value, R))
    && (v.children.Nil? ==> a.edges.children.Nil?)
    && (v.children.Items? ==>
          && a.edges.children.Items?
          && |a.edges.children.items| == |v.children.items|
          && forall j | 0 <= j < |v.children.items| :: Shows(a.edges.children.items[j], v.children.items[j], R))
    && ShowsLeaves(a.edges.usageLogs, v.usageLogs)
    && ShowsLeaves(a.edges.accountGroups, v.accountGroups)
  }

  ghost predicate ShowsAll(nodes: seq<Account>, vs: seq<View>, R: set<Account>)
    reads R
  {
    |nodes| == |vs| && forall i | 0 <= i < |nodes| :: Shows(nodes[i], vs[i], R)
  }

  lemma {:induction false} ShowsMonotone(a: Account, v: View, R: set<Account>, R': set<Account>)
    requires Shows(a, v, R) && R <= R'
    ensures Shows(a, v, R')
    decreases v
  {
    if v.parent.Some? {
      ShowsMonotone(a.edges.parent, v.parent.value, R, R');
    }
    if v.children.Items? {
      forall j | 0 <= j < |v.children.items| ensures Shows(a.edges.children.items[j], v.children.items[j], R') {
        ShowsMonotone(a.edges.children.items[j], v.children.items[j], R, R');
      }
    }
  }

  lemma ShowsFields(nodes: seq<Account>, vs: seq<View>, R: set<Account>)
    requires ShowsAll(nodes, vs, R)
    ensures NodeRows(nodes) == FieldsOf(vs)
  {
  }
}
