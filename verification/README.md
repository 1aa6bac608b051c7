# Verified models of the account query engine, the account create builders, the audit gate and page branding

This project models four parts of the gateway and proves what they promise.

* **Eager loading** (`backend/ent/account_query.go`, `backend/ent/account.go`). Query builders are
  objects that are configured step by step, cloned and executed; a query returns accounts and then
  fills six edges with hash joins, recursively for parents and children. `Eager` has the loaders as
  methods over account objects with `Edges` slots that are updated in place; their result is proved
  to show the value `EagerSpec.Run`. `Filters` says which rows that is on the base query and on each
  edge, interceptors included, and `RowOrder` in which order. `PerNode` proves exactly when that value
  is what loading every edge of every node with a query of its own gives, at every depth of the
  request tree.
* **Creating accounts** (`backend/ent/account_create.go`). `BulkCreate` models the chain of mutators
  of a bulk save, with hooks as data (the fields a hook sets, how often it calls on, what it returns
  if it never does), as one recursive specification, and proves exactly-once, all-or-nothing and
  onion order; `BulkSave` has the builders as objects and proves that they follow it. `CreateChecks`
  is `defaults` and `check`, `RowScan` the way of a row into the database and back, `Upsert` the
  conflict options.
* **The audit gate** (`tools/check_pnpm_audit_exceptions.py`). `AuditParser` is the line reader with
  its round trip, `AuditGate` the decision with the exact condition for exit code 0, and `AuditTexts`
  that condition and the messages on the texts themselves.
* **Branding** (`frontend/vite.config.ts`). `Branding` is the escaper and the title rewrite, including
  the `$` patterns of JavaScript's `replace`; `BrandTexts` is the same on the texts of the page.

`dafny verify dfyconfig.toml` checks the whole project.

## What is taken as given

* A table is a sequence of rows with a unique, non-NULL `id`; `usage_logs` and `account_groups` rows
  have a non-NULL `account_id`; the column list of groups starts with `id`. A query returns exactly the
  rows that satisfy its predicates, in table order stably sorted by its order terms, cut by OFFSET and
  LIMIT (a limit of 0 means none).
* One load sees one snapshot of the store.
* Each interceptor is uninitialised, a traverser that adds predicates, or neutral.
* `sql.UpdateSet` is a column map in which the last write wins; DO NOTHING beats every update.
* The INSERT stores the first ID of a many-to-one edge in the edge's column and NULL in columns that
  were not set. JSON encoding is any codec that round-trips; decoding a text twice into one field
  gives the same document.
* Lower-casing, ISO date parsing, the current day, default functions, validators and the answers of
  the database to INSERTs are parameters.

## What the proofs found

* `AccountQuery.Clone` promises a duplicate "including all associated steps" (lines 386-387) but does
  not copy `modifiers`, so a clone of a `ForUpdate` or `ForShare` query takes no lock. A clone denotes
  the same query exactly when no builder in the tree has a modifier (`Builders.CloneDenotesSame`).
* LIMIT and OFFSET on a sub-query cut the whole batch, not each node's rows. Batched loading is loading
  per node, at every depth, if and only if every batch fits its window (`PerNode.BatchIsPerNodeIff`):
  with LIMIT alone, nothing is cut off or all rows have one owner; with OFFSET, everything is skipped,
  or one owner fills the batch up to the end of the window and no other owner has more rows than are
  skipped (`Windows.Fits`). Every window that cuts at all fails on some store, whatever the base query
  (`SubLimits.WindowBreaksBatching`).
* The groups of an account come in the order in which groups first occur in the whole batch. For a
  groups table and a sub-query this is the order of a query for the account alone, over every
  `account_groups` table and every batch, if and only if no group passes the predicates, or there is no
  window and the order terms separate every two groups that pass (`GroupOrder.GroupOrderIff`, with the
  store of `GroupOrder.OrderWitness` as an example of the contrary). Under that condition the two trees
  are equal, otherwise equal up to the order of groups.
* Loaded parents and loaded children are converse up to the filters of the two sub-queries
  (`EdgeFacts.ParentChildConverse`): a soft-deleted parent is missing from its child's edge while the
  child is listed by the parent if that was loaded with soft delete skipped. For builders of one client
  with the same interceptors they are plainly converse (`EdgeFacts.ClientConverse`).
* `AccountCreateBulk.Save` drops the error of `defaults`. That is harmless because every defaulted column
  is required, so check refuses what defaults left unset. The exception is a hook that sets those columns
  itself: then the bulk is saved where a single Save returns the error. Bulk and single saves agree, for
  all validators, exactly outside that case (`BulkSave.BulkAgreesIff`).
* The comment of `UpdateNewValues` calls it equivalent to `ResolveWithNewValues`; that option alone
  overwrites `created_at` (`Upsert.NewValuesOverwrite`), `UpdateNewValues` does not. At the end of a chain
  without DoNothing the two are equivalent if and only if no builder sets `created_at`
  (`Upsert.UpdateNewValuesIsOptionIff`).
* The audit gate compares an exception with whichever record of its key comes first, so its verdict can
  depend on the order of the report (`AuditGate.OrderWitness`): it does exactly when every relevant key
  has a covered record but not every relevant record is covered (`AuditGate.OrderMattersIff`).
* A site name with a `$` before `$`, `` ` ``, `&`, `<`, `>`, `"` or `'` is not inserted literally: the
  escaper turns the last five into `&...`, and `$&` stands for the match. That list is exact for literal
  insertion (`Branding.LiteralIff`). Branding is idempotent on every page exactly when the escaped name,
  read left to right with `$$` consumed, meets neither `$&` nor `` $` `` (`Branding.IdempotentIff`); with
  a live `$&` every further branding makes every page with a title longer (`Branding.AmpersandGrows`).

## Model

| member | source | states |
|---|---|---|
| `Builders.QueryBuilder.Do` | backend/ent/account_query.go:43-72 | Where, Limit, Offset, Unique, Order, Select and the lock calls change the builder's denotation by just that call and keep every sub-builder |
| `Builders.QueryBuilder.Lock` | backend/ent/account_query.go:939-962 | ForUpdate and ForShare add their modifier, on Postgres also Unique(false), and nothing else |
| `Builders.QueryBuilder.Attach` | backend/ent/account_query.go:411-474 | a With* call attaches a configured sub-builder: the denotation gains that edge, replacing an earlier one |
| `Builders.Perform` | backend/ent/account_query.go:43-474 | any sequence of builder calls, nested sub-builder calls included, denotes the fold of those calls |
| `BuilderCalls.CallsCollect` | backend/ent/account_query.go:43-72 | over any sequence of calls every predicate, order term, selected column and lock asked for is kept, in call order, and interceptors are not touched |
| `BuilderCalls.LastCallCounts` | backend/ent/account_query.go:49-64 | LIMIT, OFFSET and DISTINCT are those of the last call that says something of them, a Postgres lock saying DISTINCT off |
| `Builders.CloneDenotesSame` | backend/ent/account_query.go:386-409 | what Clone copies denotes the same query if and only if no builder of the tree has a lock modifier |
| `Builders.Clone` | backend/ent/account_query.go:388-409 | the clone is all new objects and denotes the original request without modifiers, at every level |
| `Builders.Interleave` | backend/ent/account_query.go:43-474 | calls on two builders without shared state, interleaved in any way, leave each denoting only its own calls |
| `Builders.CloneThenCall` | backend/ent/account_query.go:388-474 | after Clone, any interleaving of calls on original and clone, sub-builders included, shows in neither of them what was called on the other |
| `Store.Prepare` | backend/ent/account_query.go:524-548 | prepareQuery accepts exactly the queries without an uninitialised interceptor whose selected fields are columns, and then adds the traversers' predicates |
| `Store.PrepareRefuses` | backend/ent/account_query.go:524-541 | an uninitialised interceptor is reported first, then the first selected field that is no column |
| `Eager.PrepareQuery` | backend/ent/account_query.go:524-548 | the exact error is reported, and in any case the builder has gained just the predicates of the traversers before the first uninitialised interceptor; on success it is the prepared query |
| `Filters.ReachedIs` | backend/ent/account_query.go:525-533 | what prepareQuery has added when it ends, error or not, asks exactly the predicates of the traversers that no uninitialised interceptor precedes |
| `Filters.ReturnedIsAsked` | backend/ent/account_query.go:525-580 | every returned account is the scan of a table row of which every predicate of the caller and every predicate of a traverser interceptor holds, soft delete for one |
| `Filters.AskedIsReturned` | backend/ent/account_query.go:525-580 | without a window every such row is returned |
| `Filters.ReturnedOnce` | backend/ent/account_query.go:550-580 | no account is returned twice |
| `Filters.ProxyIsAsked` | backend/ent/account_query.go:688-719 | a loaded proxy is the row the node refers to and passes everything asked of proxies, interceptors included; without a window such a row is loaded |
| `Filters.ParentIsAsked` | backend/ent/account_query.go:720-751 | the same for the parent |
| `Filters.ChildIsAsked` | backend/ent/account_query.go:752-784 | the same for children: rows with the node as parent that pass everything asked |
| `Filters.LogIsAsked` | backend/ent/account_query.go:785-814 | the same for usage logs, as the scanned rows themselves |
| `Filters.AccountGroupIsAsked` | backend/ent/account_query.go:815-844 | the same for account groups |
| `Filters.GroupIsAsked` | backend/ent/account_query.go:627-687 | the same for groups: those joined with the node by an account_groups row that pass everything asked of groups |
| `QueryFacts.FetchComplete` | backend/ent/account_query.go:550-580 | without LIMIT and OFFSET a query returns exactly the rows of the table that satisfy all predicates |
| `RowOrder.FetchInOrder` | backend/ent/account_query.go:894-900 | of two returned rows the first has the smaller rank at the first order term in which they differ, or they tie and stand in table order |
| `RowOrder.WindowKeeps` | backend/ent/account_query.go:888-893 | OFFSET skips that many rows, LIMIT keeps at most that many of the rest, zero meaning no limit |
| `EagerSpec.AccountSelection` | backend/ent/account_query.go:858-880 | a selection has the ID as its first column, every selected field, and the foreign key of a requested proxy or parent edge |
| `EagerSpec.SelectionExact` | backend/ent/account_query.go:866-880 | a selection consists of exactly the ID, the selected fields and the needed foreign keys |
| `EagerSpec.OwnedSelectionExact` | backend/ent/account_query.go:794-824 | the usage log and account group sub-queries add the foreign key to a selection, and nothing else |
| `EagerSpec.JoinedHolding` | backend/ent/account_query.go:636-668 | of each row of the joined query the first value is the account, the second the ID of the group, and assigning the values from there on gives the scanned group, whatever is selected |
| `Loaders.IndexByForeignKey` | backend/ent/account_query.go:688-701 | the index lists, for each key, exactly the nodes with that key in order, repeated nodes included; the ID list has each key once |
| `Loaders.IndexById` | backend/ent/account_query.go:752-763 | the index maps every ID to the last node with that ID |
| `Loaders.AssignParents` | backend/ent/account_query.go:740-749 | each node gets the last returned parent with its key; no other slot changes; success iff every parent was asked for |
| `Loaders.AssignProxies` | backend/ent/account_query.go:708-717 | each node gets the last returned proxy with its key; no other slot changes; success iff every proxy was asked for |
| `Loaders.AssignChildren` | backend/ent/account_query.go:769-782 | the node kept for an ID gets exactly the children dealt to that ID, in order; no other slot changes |
| `Loaders.AssignLeaves` | backend/ent/account_query.go:801-812 | the same for usage logs and account groups |
| `Loaders.CollectLinks` | backend/ent/account_query.go:657-670 | reading account and group ID by position, each group becomes one object, at its first join row, and is noted for exactly the accounts linked to it |
| `Loaders.AssignGroups` | backend/ent/account_query.go:677-685 | each account gets the groups noted for it, in the order of the groups |
| `Loaders.GivenIsJoined` | backend/ent/account_query.go:627-687 | what the two maps of the many-to-many join give an account is the nested-loop join of its ID with the join rows |
| `Loaders.LatestIsLast` | backend/ent/account_query.go:688-751 | what the foreign-key index assigns last is the last returned row with that key |
| `Loaders.DealtIsOwned` | backend/ent/account_query.go:752-844 | what the ID index deals to a node are the returned rows that carry its ID |
| `Eager.LoadProxy` | backend/ent/account_query.go:688-719 | every node's proxy slot shows its proxy, no other slot changes, and the slot is the one object kept for the node's key, even if node IDs repeat |
| `Eager.LoadParent` | backend/ent/account_query.go:720-751 | every node's parent slot shows its recursively loaded parent, no other slot changes, and the slot is the one object kept for the node's key |
| `Eager.LoadGroups` | backend/ent/account_query.go:627-687 | every node's groups show the join, no other slot changes, and all groups come from one set of objects with distinct IDs |
| `Eager.LoadChildren` | backend/ent/account_query.go:752-784 | every node's children slot shows its recursively loaded children, no other slot changes |
| `Eager.LoadUsageLogs` | backend/ent/account_query.go:785-814 | every node's usage logs show the rows with its ID, no other slot changes |
| `Eager.LoadAccountGroups` | backend/ent/account_query.go:815-844 | every node's account groups show the rows with its ID, no other slot changes |
| `Eager.RunEdges` | backend/ent/account_query.go:583-625 | the six loads, in order: the first refused sub-query is the reported error and never an "unexpected" neighbour; otherwise every slot of every node shows its edge and neighbours are shared |
| `Eager.All` | backend/ent/account_query.go:307-314 | executing a builder yields account objects that show exactly the specified result of its request tree, or exactly the specified error, which is never "unexpected"; at every depth of the tree the accounts reached by the same edges share: equal foreign keys one proxy and one parent object, equal group IDs one group object |
| `Windows.FitsIff` | backend/ent/account_query.go:785-814 | cutting a batch of owned rows by LIMIT and OFFSET gives every owner its own cut rows if and only if the batch fits |
| `Batches.LogsIff` | backend/ent/account_query.go:785-814 | every node gets from the batch the usage logs its own windowed query returns if and only if the unwindowed batch fits the window |
| `Batches.AccountGroupsIff` | backend/ent/account_query.go:815-844 | the same for account groups |
| `PerNode.ChildRowsIff` | backend/ent/account_query.go:752-784 | the same for children |
| `Batches.ProxyIff` | backend/ent/account_query.go:688-719 | the same for proxies, with the foreign keys as owners |
| `PerNode.ParentRowsIff` | backend/ent/account_query.go:720-751 | the same for parents |
| `Links.GroupsIff` | backend/ent/account_query.go:627-687 | the same for groups, with the accounts of the join rows as owners |
| `PerNode.BatchIsPerNodeIff` | backend/ent/account_query.go:550-844 | for every store and every successful load, the batched hash joins give what separate queries per node and edge give, at every depth and up to the order of groups, if and only if every batch of the tree fits its window |
| `PerNode.BatchEqualsPerNode` | backend/ent/account_query.go:550-844 | if moreover the order terms of each groups sub-query separate its groups, the two trees are equal |
| `PerNode.BatchIsPerNode` | backend/ent/account_query.go:550-844 | without windows every accepted request tree loads successfully and as per node |
| `GroupOrder.GroupOrderIff` | backend/ent/account_query.go:627-687 | over every join table and batch an account's groups come in the order of its own query if and only if no group passes, or there is no window and the order terms separate every two groups that pass |
| `GroupOrder.WindowBreaksGroups` | backend/ent/account_query.go:627-687 | for every window that cuts at all a passing group, linked to enough accounts, is missing for or surplus in some account |
| `GroupOrder.OrderWitness` | backend/ent/account_query.go:657-685 | join rows (2,h), (1,g), (1,h) list account 1's groups as [h,g] in the batch and [g,h] alone |
| `SubLimits.WindowBreaksBatching` | backend/ent/account_query.go:785-814 | for every LIMIT, OFFSET or combination that cuts at all, and every base query (any predicates, interceptors, order, selection) that returns two accounts, there is a store of these accounts where the batched load succeeds and is not the load per node |
| `SubLimits.LimitBreaksBatching` | backend/ent/account_query.go:785-814 | in particular for every LIMIT of at least 1 and every such base query |
| `ManyToMany.GroupListedIffLinked` | backend/ent/account_query.go:627-687 | for any order and multiplicity of join rows an account lists a group iff a join row exists, and never twice |
| `ManyToMany.GroupsAreSubsequence` | backend/ent/account_query.go:627-687 | an account's groups are a subsequence of the groups in first-occurrence order |
| `ManyToMany.MembersDistinct` | backend/ent/account_query.go:661-668 | no two of the group objects of one load have the same ID |
| `EdgeFacts.ParentChildConverse` | backend/ent/account_query.go:720-784 | for any two successful loads with unwindowed children and parent sub-queries: c is among p's loaded children and p passes the filter of the parent sub-query iff c's loaded parent is p and c passes the filter of the children sub-query |
| `EdgeFacts.ConverseUnderFilters` | backend/ent/account_query.go:720-784 | if the sub-queries filter no more than the queries that returned p and c, c is among p's children iff c's parent is p |
| `EdgeFacts.ClientConverse` | backend/ent/client.go:847-853 | so for the sub-builders that WithParent and WithChildren make, which carry the interceptors of the client, soft delete included, if the base builders carry them too |
| `EdgeFacts.UnfilteredConverse` | backend/ent/schema/mixins/soft_delete.go:82-94 | and for sub-queries whose interceptors add no predicate, as when soft delete is skipped, whatever the base queries filter |
| `EdgeFacts.ChildListed` | backend/ent/account_query.go:752-784 | an account is listed as a child iff its parent key is the node's ID and it passes the filter of the unwindowed children sub-query |
| `EdgeFacts.ParentListed` | backend/ent/account_query.go:720-751 | an account is the loaded parent iff the node's parent key is its ID and it passes the filter of the unwindowed parent sub-query |
| `EdgeFacts.ViewChildren` | backend/ent/account_query.go:752-784 | a loaded node lists a child iff the sub-query returned a row with that ID and the node's ID as parent |
| `EdgeFacts.ProxyOrErrExact` | backend/ent/account.go:118-127 | after any successful load: not-loaded iff the edge was not requested; found, with that row's fields, iff requested and the sub-query returned the row with the node's key; otherwise not-found |
| `EdgeFacts.ProxyFoundIffReferred` | backend/ent/account.go:118-127 | if the proxy sub-query has no window, found iff the referenced row exists and passes its predicates, whatever the other edges are |
| `EdgeFacts.ParentOrErrExact` | backend/ent/account.go:129-138 | the same for the parent edge |
| `EdgeFacts.ParentFoundIffReferred` | backend/ent/account.go:129-138 | the same for the parent edge |
| `EdgeFacts.ListsOrErrExact` | backend/ent/account.go:109-165 | after any successful load the accessors of the list edges give the list, possibly empty, iff the edge was requested, and not-loaded otherwise |
| `Projection.SelectionKeepsGraph` | backend/ent/account_query.go:858-880 | any field selection on the base query or any sub-query leaves IDs and edges of the loaded graph as they are with all columns |
| `Projection.BaseSame` | backend/ent/account_query.go:858-880 | IDs and the needed foreign keys are scanned alike with and without a selection |
| `RowScan.ScanValues` | backend/ent/account.go:168-189 | one fresh holder of the column's type per column |
| `RowScan.Account.AssignValues` | backend/ent/account.go:191-417 | the loop over columns does what folding the per-column assignment does, or stops with its first error |
| `RowScan.SwitchesAgree` | backend/ent/account.go:168-417 | for every column, the holder type made is the holder type expected; only malformed JSON can fail |
| `RowScan.NoMismatch` | backend/ent/account.go:168-417 | for every column list, unknown and repeated names included, no scan ends in a type mismatch or a count mismatch |
| `RowScan.ScanReadsRow` | backend/ent/account.go:191-417 | scanning any columns of a row gives exactly their decoded values, NULL leaving the field unset |
| `RowScan.ScanFailsAt` | backend/ent/account.go:191-417 | a scan fails iff a listed JSON column holds text that is no JSON, and names the first such column |
| `RowScan.SelectedKept` | backend/ent/account.go:412-413 | columns that are no fields of an account are kept with their values under their names, and no others are |
| `RowScan.LoadsIff` | backend/ent/account.go:168-189 | which database values each column can be scanned from |
| `RowScan.StoredLoads` | backend/ent/account_create.go:682-857 | whatever createSpec wrote can be loaded into the holders of any column list |
| `RowScan.CreateThenScan` | backend/ent/account_create.go:682-857 | reading a created row through any column list gives those fields of the node createSpec returned |
| `RowScan.CreateThenReadAll` | backend/ent/account_create.go:682-857 | with all columns, in any order and repeated, the whole node comes back, NULL matching unset exactly |
| `RowScan.NodeIsMutation` | backend/ent/account_create.go:682-857 | the returned node has exactly the fields the caller set, column by column, and the foreign keys of its two edges |
| `RowScan.StoredIsMutation` | backend/ent/account_create.go:682-857 | so does the stored row, documents as JSON text |
| `RowScan.StoredKeys` | backend/ent/account_create.go:682-857 | with the generated ID and the foreign keys |
| `RowScan.CreateThenReadMutation` | backend/ent/account_create.go:682-857 | reading a created row through all columns gives every field just as the caller set it |
| `CreateChecks.WithDefaultsIs` | backend/ent/account_create.go:526-583 | defaults fills exactly the unset columns up to the first one without a default function, keeps set ones, and names that column |
| `CreateChecks.DefaultsAre` | backend/ent/account_create.go:526-583 | with all its functions defaults gives each of the eleven columns its own default if unset, keeps set values and touches nothing else |
| `CreateChecks.DefaultsStop` | backend/ent/account_create.go:526-583 | otherwise the error names the first of created_at, updated_at, credentials and extra that is unset and has no function |
| `CreateChecks.CheckIs` | backend/ent/account_create.go:585-662 | check passes iff every required field is set and every validated field valid, and otherwise names the first offender in source order |
| `CreateChecks.CheckPassesIff` | backend/ent/account_create.go:585-662 | check passes iff the fourteen required columns are set and the values of name, platform, type, status, quota_dimension and, if set, session_window_status are accepted by their validators |
| `CreateChecks.CheckNamesFirst` | backend/ent/account_create.go:585-662 | otherwise it names the first faulty column in the order of the source |
| `CreateChecks.DroppedErrorIff` | backend/ent/account_create.go:497-662 | whatever the validators are, check after a failed or successful defaults passes iff a single Save would pass both, exactly unless defaults gives up and caller, hooks and the defaults filled before set every required column |
| `CreateChecks.DroppedErrorHarmless` | backend/ent/account_create.go:497-662 | so for every mutation, any missing default functions and any hooks that do not set a column whose default is missing, none included |
| `BulkSave.BulkPassesIffSinglesPass` | backend/ent/account_create.go:2095-2152 | with forward-once hooks a bulk sends its one batch iff there is a builder and every builder would send its INSERT in a Save of its own, unless hooks make up for everything that a failed defaults left unset |
| `BulkSave.OrdinaryHooks` | backend/ent/account_create.go:2101-2112 | that exception does not arise if no hook sets a column whose default is missing, in particular without hooks |
| `BulkSave.SlippedThrough` | backend/ent/account_create.go:2101-2112 | in the exceptional case, with accepting validators, the bulk sends its batch although some builder saved by itself returns the error of defaults |
| `BulkSave.BulkAgreesIff` | backend/ent/account_create.go:497-502 | bulk and single saves agree for all validators if and only if that case does not arise |
| `BulkSave.AccountCreate.Defaults` | backend/ent/account_create.go:526-583 | the mutation in place becomes the specified one, and the error is the specified one |
| `BulkSave.AccountCreate.Check` | backend/ent/account_create.go:585-662 | the chain of tests returns the specified verdict |
| `BulkSave.AccountCreateBulk.InnerMutate` | backend/ent/account_create.go:2106-2137 | one mutator step on the shared slices does what the specification's step does |
| `BulkSave.AccountCreateBulk.Mutate` | backend/ent/account_create.go:2106-2141 | a mutator wrapped in its hooks does what the specification's level does |
| `BulkSave.AccountCreateBulk.Save` | backend/ent/account_create.go:2095-2152 | Save returns the earlier error and touches no builder, or fills defaults, drops their errors, and ends in the specified state with the specified result |
| `BulkCreate.BatchCount` | backend/ent/account_create.go:2103-2147 | with hooks that call on any number of times the batch is sent as often as the product of those numbers if every check passes, and never otherwise |
| `BulkCreate.ExactlyOnce` | backend/ent/account_create.go:2095-2152 | with forward-once hooks one batch, with one spec per builder in order, is sent iff there is a builder and every check passes |
| `BulkCreate.SuccessIsTotal` | backend/ent/account_create.go:2129-2151 | Save succeeds iff all checks pass and the driver accepts; then node i comes from builder i and every mutation is done with its ID |
| `BulkCreate.FailureIsTotal` | backend/ent/account_create.go:2112-2131 | Save fails with the first failing check or the driver's error, as a constraint error iff the driver called it one, and then no mutation is marked |
| `BulkCreate.SavedIds` | backend/ent/account_create.go:2132-2136 | node j has the ID the driver returned in place j |
| `BulkCreate.TargetAt` | backend/ent/account_create.go:2106-2141 | the value that reaches a check is that of the last hook setting the field, else the caller's |
| `BulkCreate.RetrySends` | backend/ent/account_create.go:2138-2147 | a hook that calls on n times among forward-once hooks sends n batches if every check passes |
| `BulkCreate.LastInnerResult` | backend/ent/account_create.go:2138-2141 | of several calls of the next mutator the last one decides the result |
| `BulkCreate.SilentHook` | backend/ent/account_create.go:2138-2141 | a hook that never calls on ends its chain with its own result, and nothing is checked or sent |
| `BulkCreate.Onion` | backend/ent/account_create.go:2103-2147 | the trace is the entries up to the first failing builder, the batch if there is none, and the matching exits in reverse |
| `BulkCreate.EntersSorted` | backend/ent/account_create.go:2138-2141 | hooks are entered in builder order and, within a builder, in hook order |
| `BulkCreate.EntersAll` | backend/ent/account_create.go:2138-2141 | exactly the hooks of the builders up to the first failing one are entered |
| `BulkCreate.MirrorAt` | backend/ent/account_create.go:2138-2141 | the exits mirror the entries position by position |
| `Upsert.UpsertBuilder.Apply` | backend/ent/account_create.go:1442-1477 | each upsert call appends its own conflict options and nothing else |
| `Upsert.UpsertBuilder.Chain` | backend/ent/account_create.go:922-927 | a chain started with OnConflictColumns collects the options of its calls in order |
| `Upsert.CreatedAtKept` | backend/ent/account_create.go:1442-2051 | for every chain of named upsert calls and any number of builders a conflicting row keeps its created_at |
| `Upsert.UpdateNewValuesLast` | backend/ent/account_create.go:2224-2235 | after a final UpdateNewValues each inserted column but created_at takes the proposed value; the others are as before that call |
| `Upsert.IgnoreLast` | backend/ent/account_create.go:2243-2246 | after a final Ignore the inserted columns keep their values; the others are as before that call |
| `Upsert.OneBuilderSuffices` | backend/ent/account_create.go:2224-2246 | in a bulk a column set by any one builder is treated as inserted by the final Ignore or UpdateNewValues |
| `Upsert.UnsetColumnStays` | backend/ent/account_create.go:2224-2246 | a column that no builder sets stays as the earlier calls left it |
| `Upsert.DoNothingWins` | backend/ent/account_create.go:2250-2253 | DoNothing anywhere in a chain leaves every cell of the row alone |
| `Upsert.NewValuesOverwrite` | backend/ent/account_create.go:1434-1450 | ResolveWithNewValues alone replaces created_at iff some builder sets it |
| `Upsert.UpdateNewValuesIsOptionIff` | backend/ent/account_create.go:1434-1450 | at the end of any chain, UpdateNewValues and the option its comment calls equivalent agree on every cell of every row iff no builder sets created_at or the chain has a DoNothing |
| `Upsert.UpdateLast` | backend/ent/account_create.go:928-1432 | setters as the last call: of several for one column the last counts; a value is stored, Update takes the proposed value, Clear stores NULL, Add adds to what is there, NULL counting as zero |
| `Upsert.UpdateLeavesOthers` | backend/ent/account_create.go:928-1432 | columns that no setter of the last call names are as before it |
| `Upsert.NothingCalled` | backend/ent/account_create.go:922-927 | before any call a conflicting row keeps every cell |
| `Upsert.NamedColumns` | backend/ent/account_create.go:949-1432 | which columns have setters, Clear methods and Add methods |
| `AuditParser.SplitKv` | tools/check_pnpm_audit_exceptions.py:12-20 | splitting raises exactly on lines without a colon, and otherwise gives the stripped text before the first colon and the stripped, unquoted text after it |
| `AuditParser.SplitEntry` | tools/check_pnpm_audit_exceptions.py:12-20 | a printed entry splits back into its key and value, whether the value is written as it is or between single or double quotes |
| `AuditParser.SplitBare` | tools/check_pnpm_audit_exceptions.py:12-20 | a trimmed value that does not begin and end with the same quote is kept as it is |
| `AuditParser.SplitQuoted` | tools/check_pnpm_audit_exceptions.py:12-20 | a value between two single or two double quotes is what is between them, whatever it contains |
| `AuditParser.AsciiSpaces` | tools/check_pnpm_audit_exceptions.py:12-20 | the ASCII characters that stripping removes |
| `AuditParser.ParseExceptions` | tools/check_pnpm_audit_exceptions.py:23-48 | the loop over lines computes the fold of the line classification |
| `AuditParser.RaisesIff` | tools/check_pnpm_audit_exceptions.py:23-48 | parsing raises iff some opening line has no colon |
| `AuditParser.RecordPerOpening` | tools/check_pnpm_audit_exceptions.py:34-47 | if parsing does not raise there are as many records as stripped lines starting with dash and space, and none is empty |
| `AuditParser.InsertNothing` | tools/check_pnpm_audit_exceptions.py:29-33 | a line that means nothing can be inserted anywhere without effect |
| `AuditParser.PreambleIgnored` | tools/check_pnpm_audit_exceptions.py:43-45 | lines before the first opening line are not read |
| `AuditParser.CommentsMeanNothing` | tools/check_pnpm_audit_exceptions.py:29-33 | blank, comment and header lines, however indented, mean nothing |
| `AuditParser.ParseAppend` | tools/check_pnpm_audit_exceptions.py:23-48 | parse(a ++ b) is parse(a) ++ parse(b) when the first significant line of b opens a record, and raises iff one of them does |
| `AuditParser.ClassifyFieldLine` | tools/check_pnpm_audit_exceptions.py:29-45 | a printed field line is read as that field iff its key is no header, comment or record opening |
| `AuditParser.PrintThenParse` | tools/check_pnpm_audit_exceptions.py:23-48 | printing any list of records, each value bare or in either kind of quotes, and parsing the lines returns the list |
| `AuditParser.FileRoundTrip` | tools/check_pnpm_audit_exceptions.py:27-48 | the same through file text, whichever of the three line ends each line has |
| `AuditParser.LinesOfJoin` | tools/check_pnpm_audit_exceptions.py:27-28 | non-empty lines are told apart whatever ends them, and the last one may have no end |
| `AuditParser.DictOfDistinct` | tools/check_pnpm_audit_exceptions.py:41-45 | with distinct keys a parsed record has exactly the printed entries |
| `AuditParser.DictLastWins` | tools/check_pnpm_audit_exceptions.py:41-45 | of several entries with one key the last one counts |
| `AuditGate.IndexLoop` | tools/check_pnpm_audit_exceptions.py:153-185 | the first loop computes the specified index and complaints |
| `AuditGate.ScanLoop` | tools/check_pnpm_audit_exceptions.py:187-219 | the second loop computes the specified scan, or raises where the specification does |
| `AuditGate.IndexClean` | tools/check_pnpm_audit_exceptions.py:156-185 | no complaint iff all exceptions are well formed with distinct keys, and then the index maps each key to its exception |
| `AuditGate.ExitZeroIff` | tools/check_pnpm_audit_exceptions.py:142-243 | nothing is reported iff every exception is complete, dated and unique, no severity is malformed, every high or critical named record has an advisory, and the first record of each key has an unexpired exception of blank or equal severity |
| `AuditGate.Decide` | tools/check_pnpm_audit_exceptions.py:142-243 | the exit code is 0 iff that condition holds, main raises iff some severity is malformed, and the messages are the specified ones in order |
| `AuditTexts.ExitZeroTexts` | tools/check_pnpm_audit_exceptions.py:112-219 | the condition for exit code 0 on the texts: packages compared stripped, advisories and severities stripped and lower-cased |
| `AuditTexts.ExcusedByTexts` | tools/check_pnpm_audit_exceptions.py:112-219 | a record is excused by an unexpired exception of equal severity whose package equals its own but for blanks around it and whose advisory does but for blanks and case |
| `AuditTexts.ExceptionTexts` | tools/check_pnpm_audit_exceptions.py:112-185 | blanks around package, advisory and severity of an exception, and case of the last two, do not change whether the exit code is 0 |
| `AuditTexts.RecordTexts` | tools/check_pnpm_audit_exceptions.py:112-205 | nor do they in a record |
| `AuditTexts.OtherValues` | tools/check_pnpm_audit_exceptions.py:112-131 | a number as advisory or name counts as its digits; nothing, or zero as name or severity, as the empty text |
| `AuditTexts.RaisesTexts` | tools/check_pnpm_audit_exceptions.py:112-114 | main raises iff some severity is a number other than zero |
| `AuditTexts.OneExceptionReport` | tools/check_pnpm_audit_exceptions.py:156-185 | what is said of one exception: the missing fields, else the date, else a blank value |
| `AuditTexts.DuplicateReport` | tools/check_pnpm_audit_exceptions.py:175-180 | a second exception for the same package and advisory is reported as duplicate |
| `AuditTexts.SilentReport` | tools/check_pnpm_audit_exceptions.py:193-203 | nothing is said of a record that does not count, and one without advisory is reported |
| `AuditTexts.UnexcusedReport` | tools/check_pnpm_audit_exceptions.py:207-231 | a record without an exception is reported under its heading |
| `AuditTexts.ExceptionReport` | tools/check_pnpm_audit_exceptions.py:207-238 | a different severity is reported as mismatch, and an expired exception under its heading |
| `AuditTexts.ReportSections` | tools/check_pnpm_audit_exceptions.py:221-240 | every report has three sections in this order: other errors, then under their headings the records without an exception and the expired exceptions |
| `AuditGate.ExceptionOrderIrrelevant` | tools/check_pnpm_audit_exceptions.py:156-219 | permuting the exceptions does not change whether the exit code is 0 |
| `AuditGate.RecordOrderIrrelevant` | tools/check_pnpm_audit_exceptions.py:191-219 | permuting or repeating records does not change whether the exit code is 0, if records with equal keys have equal severity |
| `AuditGate.EveryOrderPasses` | tools/check_pnpm_audit_exceptions.py:191-219 | every order of the records gives exit code 0 iff the exceptions are orderly and every record is settled by itself |
| `AuditGate.SomeOrderPasses` | tools/check_pnpm_audit_exceptions.py:191-219 | some order gives 0 iff the exceptions are orderly, no severity is malformed, no relevant record lacks an advisory, and every relevant key has a covered record |
| `AuditGate.OrderMattersIff` | tools/check_pnpm_audit_exceptions.py:191-219 | the verdict depends on the order iff every relevant key has a covered record and some relevant record is not covered |
| `AuditGate.OrderWitness` | tools/check_pnpm_audit_exceptions.py:204-215 | one exception for high until 2099-12-31, the advisory reported as high and as critical: 0 in one order, not 0 in the other, for any lower-casing and date reading that treat these texts as usual and any day up to then |
| `AuditGate.FileBlocksCommute` | tools/check_pnpm_audit_exceptions.py:23-219 | swapping two blocks of the exception file changes neither whether reading raises nor whether the exit code is 0 |
| `Branding.UnescapeEscape` | frontend/vite.config.ts:6-14 | reading the character references of an escaped text gives the text back |
| `Branding.EscapeInjective` | frontend/vite.config.ts:6-14 | different texts escape differently |
| `Branding.EscapeSafe` | frontend/vite.config.ts:6-14 | escaped text has no angle bracket and no quote |
| `BrandTexts.EscapeEach` | frontend/vite.config.ts:6-14 | the reference of each of the five characters; all others stand for themselves |
| `Branding.BrandIsLiteral` | frontend/vite.config.ts:29-37 | for names without a replacement pattern exactly the first title element is replaced, by the escaped name, and all other text stays |
| `BrandTexts.MatchIsTitle` | frontend/vite.config.ts:34 | a match is exactly a title element without an angle bracket inside, its tags in any case |
| `BrandTexts.ExpandPatterns` | frontend/vite.config.ts:33-36 | what the four `$` patterns of a replacement string stand for |
| `BrandTexts.ExpandRest` | frontend/vite.config.ts:33-36 | everything else in it stands for itself |
| `BrandTexts.FirstTitleReplaced` | frontend/vite.config.ts:33-36 | the first title element, and nothing else, is replaced by what the replacement string stands for |
| `BrandTexts.TitleOfName` | frontend/vite.config.ts:33-36 | for a name without a dollar sign that is the escaped name between the texts of the source |
| `BrandTexts.NoTitleNoChange` | frontend/vite.config.ts:31-37 | a page without a title, and any page if the name is empty, stays as it is |
| `Branding.BrandIdempotent` | frontend/vite.config.ts:29-37 | for every page and every name whose escaped form meets no live pattern, branding twice is branding once |
| `Branding.IdempotentIff` | frontend/vite.config.ts:29-37 | branding is idempotent on every page iff the escaped name, read left to right with `$$` consumed, meets neither live pattern |
| `Branding.LiteralIff` | frontend/vite.config.ts:29-37 | a name is inserted literally into every page iff it has no replacement pattern |
| `Branding.AmpersandGrows` | frontend/vite.config.ts:29-37 | for every name with a live `$&`, branding again makes every page with a title longer |
| `Branding.GatewayBranding` | frontend/vite.config.ts:29-37 | both exact conditions for the tags and the suffix of the source |
| `Branding.DollarsSettle` | frontend/vite.config.ts:29-37 | the two conditions differ: `$$` is not inserted literally and yet settles |

## Left out

- Builders.QueryBuilder.Do: the backing arrays that Go slices share after append are not modelled; field lists are values.
- Builders.Clone: the `path` and `sql` fields of traversal queries are not modelled, so queries reached through QueryGroups and its siblings are outside the statement.
- PerNode.BatchIsPerNodeIff: where a sub-query cuts on both sides its rows must differ in what is scanned of them (IDs do), and where the groups sub-query is cut join rows must not repeat; otherwise equal rows at different positions could agree by chance.
- PerNode.BatchEqualsPerNode: the same.
- Batches.AccountGroupsIff: the same for account groups, whose rows have no ID: a sub-query that cuts on both sides and selects columns that repeat between rows is outside the statement.
- Eager.All: states one execution of a builder; executing it again would append the join predicates a second time.
- Eager.LoadAccountGroups: the Unique flag and DISTINCT are not modelled; the account_groups sub-query with a selection and DISTINCT may drop rows that the model keeps.
- BulkSave.AccountCreateBulk.Save: requires the builders of a bulk to be different objects; a bulk that lists one builder twice would share one mutation between two steps.
- BulkSave.AccountCreateBulk.InnerMutate: the same.
- BulkSave.AccountCreateBulk.Mutate: the same.
- SubLimits.WindowBreaksBatching: the witness is built for the usage log edge, with a sub-query without order terms that passes the logs; the exact condition for every edge and sub-query is that of PerNode.BatchIsPerNodeIff.
- SubLimits.LimitBreaksBatching: the same.
- BulkSave.BulkAgreesIff: the Save of a single builder is specified on values (defaults, then hooks around check and INSERT as in a chain of one builder), not as a method of an object.
- BulkCreate.BatchCount: hooks that replace the mutation by another object or type are not modelled; a hook sets fields, calls on a fixed number of times and returns the last inner result.
- Upsert.CreatedAtKept: closures passed to Update that reach past the named methods to sql.UpdateSet are not modelled, nor are raw options passed to OnConflict before OnConflictColumns.
- RowScan.CreateThenScan: the group, children and usage log edges of createSpec, which write other tables, are not modelled; integers are unbounded and floats are reals.
- AuditGate.Decide: iter_vulns, pick_advisory_id, JSON and argument reading are not modelled; the yielded records are inputs.
- Branding.GatewayBranding: trimming of the site name, the icon link and the settings script are not modelled.
- Interceptors that wrap the execution of a query (instead of adding predicates), driver errors, contexts and cancellation.
- GroupBy, Select scans, Aggregate, Count, Exist, First, Only, IDs and the panicking X variants: they would only add easy members.
- SQL text, row locks and unspecified row order: table order stands for the order of the database.
- A query with OFFSET and no LIMIT: the largest 32-bit limit that the library adds.
- The builders of the other entities, the update and delete builders, String and Unwrap: the same generated template.
