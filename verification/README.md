# Verified models of the account persistence core and the release gates

This project models three parts of the repository in Dafny and proves what they are for.

**Eager loading** (`Graph`, `LoadOne`, `LoadMany`, `LoadGroups`, `SqlAll`, `Joins`, `Relational`). An account query
fetches its edges with one batched query per edge and hands the neighbours out to in-memory nodes
through maps. Nodes are heap objects, the loops and maps are those of the source, and the answers of
the edge queries are arbitrary functions of the ids they are sent. Each load is proved to build lists
defined by recursion over the answer, and to fail exactly when the answer does not belong to the
nodes; `Joins` then proves that those lists are the relational join, lookup and partition, and
`Relational` that a whole query over tables reports them. The iteration over the inner Go map is a nondeterministic choice, so the result holds for every order.

**Building and creating** (`QuerySettings`, `QueryBuilder`, `AccountFields`, `BulkCreate`,
`BulkTheorems`, `BulkConditions`, `BulkDefaults`, `BulkBuilder`). `QuerySettings` and `QueryBuilder` have the mutable
query with its context, its slices with their backing arrays and its edge queries behind pointers, and
prove that `Clone` shares nothing. `AccountFields` is the field table on which `defaults`, `check`,
`createSpec`, `scanValues` and `assignValues` have to agree. `BulkCreate` is the mutator chain of a bulk
save with arbitrary hooks as data; `BulkBuilder` is the builder that runs it.

**Release gates** (`PyText`, `ExceptionParser`, `AuditFindings`, `AuditGate`, `AuditOrder`,
`AuditReport`, `AuditGuarantee`; `Rollout`, `RolloutEvidence`, `RolloutParts`, `RolloutTheorems`,
`RolloutLiterals`). The audit gate is proved equal to a declarative rule, and the findings it decides on
to be exactly what the report says. The rollout validator is proved to accept exactly the documents that
extend a manifest rendered from typed evidence, a record in which every shared fact occurs once.

Where code and expectation differ, the model follows the code and the difference is a lemma:

- the bulk save checks the builder's own mutation before it adopts the one a hook passed on. With hooks
  that edit nothing and call next once, it inserts only what passes check if and only if every builder
  ends up with the mutation of some builder, or nothing is ever inserted (`InsertsOnlyCheckedIff`);
- a hook that calls next repeatedly repeats the insert. With hooks that edit nothing and pass their own
  mutation on, it runs as often as the product of all calls (`RetriesMultiply`), so at most once if and
  only if a mutation fails check, a hook skips next, or no hook calls it twice (`InsertsAtMostOnceIff`);
- a vulnerability none of whose `via` items has an identifier never reaches the audit gate, whatever
  its severity (`UnidentifiedIsDropped`), so a report of only such vulnerabilities passes without any
  exception (`AnonymousReportPasses`);
- only a key's first finding is compared with the recorded severity, so the order of findings can
  change the verdict (`OrderCanMatter`); it cannot if and only if findings that share a key share a
  severity, or some finding is one that no exception list excuses (`OrderInvariantIff`);
- the rollout gate compares `schema_version` with Python's `==`, which `true` satisfies too
  (`SomeManifestIsAccepted`).

## Model

| member | source | states |
|---|---|---|
| LoadOne.Load | backend/ent/account_query.go:688-751 | every node, duplicates included, gets the returned neighbour its foreign key names and keeps its other edges; fails exactly when the query fails or returns an id that was not sent |
| LoadOne.Index | backend/ent/accountgroup_query.go:379-388 | the first loop sends the non-nil keys and lists, per key, the nodes that wait for it |
| LoadOne.Distribute | backend/ent/account_query.go:741-750 | the second loop succeeds exactly when every neighbour was waited for, and then every node is filled |
| LoadOne.SentIdsExact | backend/ent/account_query.go:689-705 | the ids sent are duplicate-free and exactly the non-nil foreign keys |
| LoadOne.LastMatchExact | backend/ent/account_query.go:709-718 | the attached neighbour has the key's id, and none is attached only if none was returned |
| LoadMany.Load | backend/ent/account_query.go:752-844 | the last node holding an id gets all neighbours with that key in query order, other holders an empty list; fails exactly when a neighbour's key is nil or names no node |
| LoadMany.Index | backend/ent/account_query.go:753-761 | the index maps each id to the last node that holds it, and every list starts empty |
| LoadMany.Distribute | backend/ent/account_query.go:772-783 | succeeds exactly when every neighbour's key is known; each goes to the node the index keeps |
| LoadGroups.Load | backend/ent/account_query.go:627-687 | the final lists as a function of the join rows, for every iteration order of the inner map; fails exactly when a group has no join row or one naming an account that is not loaded (a nil account) |
| LoadGroups.Scan | backend/ent/account_query.go:650-672 | the scan hook keeps one group per distinct id, first row first, and records for each the set of its accounts |
| LoadGroups.AssignAll | backend/ent/account_query.go:677-685 | handing one group to its accounts appends it once to each of them, whatever order is chosen |
| Joins.ManyToManyIsJoin | backend/ent/account_query.go:627-687 | an account's groups are exactly those it has a row with, each once, ordered by the groups' first rows |
| Joins.FirstGroupsOrdered | backend/ent/account_query.go:661-670 | the groups kept by the scan are the first-row groups in strictly increasing row order |
| Joins.JoinNeverFails | backend/ent/account_query.go:677-685 | when the join honours its IN predicate no error branch and no nil account is reachable |
| Joins.MatchingFilters | backend/ent/account_query.go:772-783 | a node's list is exactly the neighbours whose foreign key is its id |
| Joins.MatchingKeepsOrder | backend/ent/account_query.go:772-783 | the list is taken from the neighbours at strictly increasing positions |
| Joins.ListsPartition | backend/ent/account_query.go:752-844 | all lists together are the neighbours as a multiset, so the lengths sum to the neighbour count |
| Joins.DuplicateIds | backend/ent/account_query.go:753-761 | with a repeated id the earlier object stays empty and the last one has every matching neighbour |
| Joins.OwnedNeverFails | backend/ent/account_query.go:772-782 | an edge query that honours its IN predicate never reaches the foreign-key errors |
| Joins.ManyToOneIsLookup | backend/ent/account_query.go:688-751 | over a table with unique ids each node gets precisely the row that its key column references, and nothing iff there is none |
| Joins.SentAreReferenced | backend/ent/accountgroup_query.go:379-396 | a query for the ids sent answers with exactly the rows that the key column of the nodes references |
| Joins.ParentInvertsChildren | backend/ent/account_query.go:720-784 | c is in the children list a node holds iff loading the parent of c attaches that node's row, iff c's parent_account_id is the node's id, and the node is the last with its id |
| Joins.TwoRoutesAgree | backend/ent/accountgroup_query.go:408-436 | for every account node, the ids in the groups list it holds equal those reached through the join-entity list it holds and their own group edge |
| SqlAll.QueryColumns | backend/ent/account_query.go:866-880 | a non-empty selection yields the id first and once, all selected fields, the needed foreign keys, and nothing else |
| SqlAll.EdgeProjectionIsTransparent | backend/ent/account_query.go:762-764 | whatever fields an owned edge query selects, its foreign keys are those of the full rows |
| SqlAll.LoadEdge | backend/ent/account_query.go:584-624 | one load fills its edge from the answered rows, leaves the other edges alone, and succeeds iff the edge query is honest |
| SqlAll.LoadEdges | backend/ent/account_query.go:584-624 | exactly the requested edges are filled; success iff every requested edge query is honest |
| SqlAll.SameAnswers | backend/ent/account_query.go:866-880 | whatever was selected, each edge query is sent what the full rows would send, so it answers and fails as for the full rows |
| SqlAll.Run | backend/ent/account_query.go:550-625 | for any selection and any set of requested edges: every node keeps the selected cells, its edges are those loaded from the full rows, and its accessors report them truthfully; it fails, and returns no node, exactly when the root query or a requested edge query of the full rows fails or answers dishonestly |
| SqlAll.AccessorsTellTheTruth | backend/ent/account.go:111-165 | an accessor reports not-loaded iff its edge was not requested, not-found iff requested and unmatched, and a requested list without error even if empty |
| Relational.RunOnTables | backend/ent/account_query.go:550-844 | over tables a query succeeds, and each returned node holds the groups linked to it by account_id and group_id, each once, the row its proxy_id and parent_account_id reference or nothing, and exactly the accounts with its id as parent_account_id and the logs and join entities with its id as account_id, with their multiplicities |
| QuerySettings.Slice.Append | backend/ent/account_query.go:44-46 | appends one element, in place when the backing array has room and in a fresh array otherwise |
| QuerySettings.SharingInterferes | backend/ent/account_query.go:395-397 | two slices over one array with room overwrite each other, so Clone has to copy |
| QuerySettings.Config.Clone | backend/ent/account_query.go:392-408 | the copy has a fresh context, fresh slices and fresh arrays with the same contents, and no lock modifiers |
| QueryBuilder.Query.Configure | backend/ent/account_query.go:942-963 | chaining and locking calls keep the query's invariant and its eager-load tree |
| QueryBuilder.Query.Apply | backend/ent/account_query.go:412-474 | any call, including nested eager-load options, keeps the objects of a query its own and has the effect Called gives |
| QueryBuilder.Query.Clone | backend/ent/account_query.go:388-408 | a deep copy of fresh objects and arrays, equal but for the lock modifiers, at every level |
| QueryBuilder.CloneAndUse | backend/ent/account_query.go:388-408 | after Clone any interleaving of calls on the two leaves each as if the other did not exist |
| QueryBuilder.BuiltSettings | backend/ent/account_query.go:44-72 | over any chain of calls predicates, order terms, fields and locks accumulate in call order, the last limit, offset and uniqueness win, and nothing else changes |
| QueryBuilder.WithConfigures | backend/ent/account_query.go:412-474 | an eager-load call configures its own edge from a blank query by its options, and nothing else |
| QueryBuilder.UnlockedIdempotent | backend/ent/account_query.go:388-408 | cloning a clone drops nothing more |
| QueryBuilder.CloneCommutesWithBuild | backend/ent/account_query.go:388-474 | no builder call depends on the lock modifiers that Clone drops |
| AccountFields.DefaultsExact | backend/ent/account_create.go:527-585 | defaults never overwrites a set field, adds only default values, is idempotent, and leaves on success every defaulted field present, on failure one whose default is nil absent |
| AccountFields.FirstFailureExact | backend/ent/account_create.go:588-662 | check succeeds iff every presence and validator step passes, and otherwise names a failing step |
| AccountFields.CheckExact | backend/ent/account_create.go:588-662 | check passes iff the fourteen required fields are set and the six validated fields, where set, are valid |
| AccountFields.DefaultsThenCheck | backend/ent/account_create.go:527-662 | after defaults, failed or not, check passes iff every required value is set or has a default and the validators accept; the mutation then holds exactly those values |
| AccountFields.CreateSpecExact | backend/ent/account_create.go:682-891 | every given field and no other is on the node and in the spec, with its value; the two foreign keys are on the node iff their edges are set; the spec has the mutation's edges |
| AccountFields.OnlyThreeCanBeMissing | backend/ent/account_create.go:527-662 | after successful defaults only name, platform and type can be reported missing |
| AccountFields.FailedDefaultsFailCheck | backend/ent/account_create.go:527-662 | every error exit of defaults leaves a mutation that check rejects |
| AccountFields.ScanValues | backend/ent/account.go:168-189 | one destination per column, of that column's kind, in order |
| AccountFields.AssignValues | backend/ent/account.go:193-417 | too few values are rejected; otherwise the columns are assigned in order up to the first failure |
| AccountFields.NeverTypeMismatch | backend/ent/account.go:168-417 | for every column list, assigning what scanning allocated never hits a type mismatch |
| AccountFields.StoredRowsScan | backend/ent/account.go:168-189 | every cell of a stored well-typed row fits the destination allocated for it |
| AccountFields.ReadsBackPrefix | backend/ent/account.go:193-417 | columns read in any order, with repetitions, give exactly the created fields they cover |
| AccountFields.ReadBack | backend/ent/account.go:168-417 | scanning and assigning the stored row of any mutation, over any columns, gives exactly the values the mutation gives for them |
| AccountFields.CreateThenRead | backend/ent/account_create.go:682-891 | reading an inserted row back over columns that cover the table reproduces the mutation's values, and so the returned node, with the stored id |
| BulkCreate.MutateResult | backend/ent/account_create.go:2104-2145 | for hooks that call next at most once and keep errors, whatever they edit or pass on: a call from builder i leaves earlier builders alone, inserts at most once, with every slot the spec of the adopted mutation and every own check passed, and marks the mutations of a suffix of builders done |
| BulkCreate.HookStep | backend/ent/account_create.go:2142-2144 | such a hook enters, edits, calls inwards at most once with the mutation it passes on and exits; its success needs inner success |
| BulkTheorems.SaveIsAllOrNothing | backend/ent/account_create.go:2095-2152 | at most one insert, after every builder's own mutation passed check, of the specs of the adopted mutations; done are the mutations of a suffix of the builders; success means all done, node k with id k, and the fully nested trace |
| BulkTheorems.SaveInsertsOwnMutations | backend/ent/account_create.go:2095-2152 | if hooks pass their own mutation on, the insert holds exactly the builders' own mutations as they end up, all of which pass check, and the done mutations are a suffix of the indices |
| BulkTheorems.NestShape | backend/ent/account_create.go:2142-2150 | hooks are entered in builder then hook order, the insert is the single innermost event, exits are the exact reverse |
| BulkTheorems.MutateTrace | backend/ent/account_create.go:2102-2150 | a successful run adds exactly that nest to the trace |
| BulkTheorems.MutateBalanced | backend/ent/account_create.go:2102-2150 | for arbitrary hooks, retrying, skipping or substituting, the trace is well parenthesised |
| BulkTheorems.DiscardedDefaultsErrorIsSafe | backend/ent/account_create.go:2104-2113 | if hooks edit nothing, a builder whose defaults failed prevents the insert, however often they call next and whatever they pass on, and fails the save of disciplined hooks |
| BulkDefaults.SaveCreatesRows | backend/ent/account_create.go:2095-2152 | with transparent hooks: one insert iff every row can be created from what was set and the defaults, none otherwise; slot k holds the set fields unchanged, the defaults of the eleven others and the edges of mutation k; the save succeeds iff the insert does |
| BulkDefaults.CompleteMutationsAreSaved | backend/ent/account_create.go:2095-2152 | with the four default functions, name, platform and type set and valid values, the save succeeds |
| BulkDefaults.SaveInsertsEdited | backend/ent/account_create.go:2104-2150 | with hooks that edit: the insert runs iff every mutation passes check after its defaults and the edits of its hooks in order, and slot k is the spec of that mutation |
| BulkConditions.RetriesMultiply | backend/ent/account_create.go:2102-2150 | for any builders and hooks that edit nothing and pass their own mutation on: the insert runs as often as the product of all calls to next if every mutation passes check, and never otherwise |
| BulkConditions.InsertsAtMostOnceIff | backend/ent/account_create.go:2102-2150 | at most one insert iff a mutation fails check, a hook skips next, or no hook calls it twice |
| BulkConditions.InsertsOnlyCheckedIff | backend/ent/account_create.go:2110-2115 | for any builders and hooks that edit nothing and call next once: over all stores only specs that pass check are inserted iff every builder ends up with a builder's mutation or nothing is ever inserted |
| BulkConditions.UncheckedIsInserted | backend/ent/account_create.go:2110-2115 | otherwise, a store on which a mutation without any field is inserted |
| BulkBuilder.AccountCreateBulk.MutateWith | backend/ent/account_create.go:2142-2145 | the wrapped mutator changes the builder as Mutate says, for arbitrary hooks |
| BulkBuilder.AccountCreateBulk.Innermost | backend/ent/account_create.go:2105-2141 | the innermost function changes the builder as Base says |
| BulkBuilder.AccountCreateBulk.Save | backend/ent/account_create.go:2095-2152 | an earlier builder error changes nothing; otherwise all-or-nothing for disciplined hooks, and for transparent hooks the rows that the mutations and the defaults describe |
| ExceptionParser.ParseExceptions | tools/check_pnpm_audit_exceptions.py:25-50 | the loop computes Parse, including where a line raises |
| ExceptionParser.OneEntryPerItem | tools/check_pnpm_audit_exceptions.py:30-50 | every line list that parses has exactly one, non-empty, entry per item line |
| ExceptionParser.EntryOfItem | tools/check_pnpm_audit_exceptions.py:36-49 | the k-th item's entry stands at position k and is what its own lines parse to |
| ExceptionParser.BlockParses | tools/check_pnpm_audit_exceptions.py:30-50 | an item and the lines up to the next give one entry: the pair behind the dash, then those of the lines that are no comment, header or blank and have a colon |
| ExceptionParser.PreambleIgnored | tools/check_pnpm_audit_exceptions.py:45-47 | lines before the first item are ignored |
| ExceptionParser.UnquotedValue | tools/check_pnpm_audit_exceptions.py:14-22 | a value without matching quotes is taken as it stands |
| ExceptionParser.QuotedValue | tools/check_pnpm_audit_exceptions.py:14-22 | single and double quotes around a value are removed |
| PyText.StripExact | tools/check_pnpm_audit_exceptions.py:31-40 | stripping removes white space at the ends and nothing else |
| ExceptionParser.ParseConcat | tools/check_pnpm_audit_exceptions.py:25-50 | parse(A + B) = parse(A) + parse(B), failures included, when B's first line that is not skipped is an item |
| ExceptionParser.PrintThenParse | tools/check_pnpm_audit_exceptions.py:14-50 | printing well-formed entries in canonical quoted form and parsing the lines gives them back |
| ExceptionParser.WriteThenParse | tools/check_pnpm_audit_exceptions.py:25-50 | so does writing the lines to a file and parsing its text |
| ExceptionParser.QuotedTrimmed | tools/check_pnpm_audit_exceptions.py:14-22 | splitting a quoted line returns its key and any value whatever, colons and quotes included |
| AuditFindings.CollectVia | tools/check_pnpm_audit_exceptions.py:86-111 | the loop collects the identified items and detects a title that cannot be joined |
| AuditFindings.Collect | tools/check_pnpm_audit_exceptions.py:66-113 | the loops over advisories and vulnerabilities yield IterVulns, which FindingsExact and ReadableIff describe |
| AuditReport.FindingsExact | tools/check_pnpm_audit_exceptions.py:66-113 | the findings are exactly, in report order, one per advisory, with its module name or name, severity and first truthy identifier, and one per identified via item, with the vulnerability's name and severity and the item's identifier |
| AuditReport.ReadableIff | tools/check_pnpm_audit_exceptions.py:66-113 | reading raises iff some part of the report does not have the shape needed |
| AuditReport.PickExact | tools/check_pnpm_audit_exceptions.py:53-63 | the identifier of an advisory is the first truthy of the seven candidates in order |
| AuditReport.ViaIdExact | tools/check_pnpm_audit_exceptions.py:90-110 | an item is identified by itself or by the first truthy of five members in order |
| AuditReport.LookupExact | tools/check_pnpm_audit_exceptions.py:68-86 | a member is the last pair with its name, or null |
| AuditFindings.UnidentifiedIsDropped | tools/check_pnpm_audit_exceptions.py:82-113 | a vulnerability yields a finding iff some via item is identified; otherwise the report reads as without it |
| AuditFindings.AnonymousReportPasses | tools/check_pnpm_audit_exceptions.py:82-113 | a report of vulnerabilities without identifiers passes with an empty exception list |
| AuditFindings.CheckAudit | tools/check_pnpm_audit_exceptions.py:144-245 | exit status 0 iff the exception list parses, the report is readable and the rule accepts |
| AuditGate.IndexExceptions | tools/check_pnpm_audit_exceptions.py:158-187 | no error iff all entries are well formed with pairwise distinct keys; the index holds exactly those |
| AuditGate.Decide | tools/check_pnpm_audit_exceptions.py:189-221 | crashes iff a severity is not a string; silent iff every finding is excused |
| AuditGate.Gate | tools/check_pnpm_audit_exceptions.py:158-245 | exit status 0 iff the declarative rule holds |
| AuditGate.DecisionIsRule | tools/check_pnpm_audit_exceptions.py:195-221 | the indexed, deduplicated decision equals the rule: every relevant finding identified and covered by an unexpired exception, each key's first finding of the recorded severity |
| AuditGuarantee.AcceptsExact | tools/check_pnpm_audit_exceptions.py:158-245 | acceptance iff all entries have the five fields, a date and a non-blank key, keys are distinct, every named high or critical finding is identified and has an unexpired exception, and the first with its key has the recorded severity |
| AuditGuarantee.PassedEntriesAreFilledIn | tools/check_pnpm_audit_exceptions.py:158-164 | a passed audit has no entry that lacks one of the five fields |
| AuditGuarantee.PassedIsExcepted | tools/check_pnpm_audit_exceptions.py:144-245 | in a passed audit whatever the report says of a named package with high or critical severity has a complete, unexpired exception |
| AuditGuarantee.PassedStringIsExcepted | tools/check_pnpm_audit_exceptions.py:144-245 | in particular every string via item of such a vulnerability has one for that name and string |
| AuditGate.EarlierDaysAccept | tools/check_pnpm_audit_exceptions.py:218-221 | acceptance on a day implies acceptance on every earlier day |
| AuditGate.OrderDoesNotMatter | tools/check_pnpm_audit_exceptions.py:194-221 | when findings sharing a key share a severity, order and repetition do not change the verdict |
| AuditOrder.OrderCanMatter | tools/check_pnpm_audit_exceptions.py:206-217 | an exception list and two findings that are accepted in one order and rejected in the other |
| AuditOrder.OrderInvariantIff | tools/check_pnpm_audit_exceptions.py:158-221 | every order of the findings gets the same verdict, for all exception lists and days, iff findings sharing a key share a severity or some finding raises, has a blank name or identifier, or cannot be given a date |
| RolloutParts.SealedExact | tools/check_rollout_manifest.py:93-101 | encrypted_object accepts iff the record read holds and its rendering is contained |
| RolloutParts.RestoreExact | tools/check_rollout_manifest.py:104-108 | the same for a restore |
| RolloutParts.SnapshotExact | tools/check_rollout_manifest.py:104-114 | the same for a snapshot restore with its proofs |
| RolloutParts.ObservationExact | tools/check_rollout_manifest.py:117-156 | observation accepts iff the readings hold: every interval that fits the window was checked, nothing failed, errors and latency are in bounds |
| RolloutParts.CoveredExact | tools/check_rollout_manifest.py:126-128 | the rounded quotient demands exactly the number of intervals that fit |
| RolloutParts.ArtifactExact | tools/check_rollout_manifest.py:181-212 | the artifact checks hold iff one release record explains image, platforms, labels, SBOM and provenance |
| RolloutParts.RecoveryExact | tools/check_rollout_manifest.py:214-244 | the recovery checks hold iff one record of independent restores explains them |
| RolloutParts.RestoredExact | tools/check_rollout_manifest.py:257-274 | the restored canary is accepted iff it repeats the release digest and the facts of the logical restore |
| RolloutTheorems.AcceptanceIsEvidence | tools/check_rollout_manifest.py:159-302 | a document is accepted iff it extends the rendering of some evidence that holds, where digests, commits, texts, times and fixed names are described without the validator's own tests |
| RolloutTheorems.ShownIsAccepted | tools/check_rollout_manifest.py:159-302 | every extension of rendered evidence is accepted, and the evidence, the cutover included, is read back from it |
| RolloutTheorems.AcceptedShows | tools/check_rollout_manifest.py:159-302 | the evidence read from an accepted manifest holds and is rendered within it |
| RolloutTheorems.AcceptanceIsMonotone | tools/check_rollout_manifest.py:79-83 | acceptance survives added members at any depth and every clock reading moved earlier |
| RolloutTheorems.OneReleaseOneBackup | tools/check_rollout_manifest.py:181-285 | acceptance forces one digest for image, provenance and all three deployments, and one checksum for backup, restore and restored canary |
| RolloutLiterals.AcceptedLiterals | tools/check_rollout_manifest.py:16-24 | acceptance forces a commit of 40 and digests of 64 lower-case hexadecimal digits in every place, and the literal repository, workflow, issuer, image, label, format, network mode and rollback mode |
| RolloutTheorems.CoverageBound | tools/check_rollout_manifest.py:117-128 | checks * interval > duration * 60 - interval, and checks reach every whole number up to twice the required minutes |
| RolloutTheorems.AcceptedIsObserved | tools/check_rollout_manifest.py:253-285 | an accepted manifest has at least 60 clean checks per canary and 120 in production |
| RolloutTheorems.SomeManifestIsAccepted | tools/check_rollout_manifest.py:159-302 | the gate can be passed whenever some timestamp is later than its clock readings, with schema version 1 and with true |

## Left out

- SQL rendering and execution, drivers, transactions, contexts and row locking. A query is an arbitrary function from the ids it is sent to an answer, or a table answer where a lemma says so; the batch insert fills the ids or fails as a whole.
- The traversal queries, path closures and query interceptors, beyond an arbitrary function on the neighbours of the many-to-many load; eager loads nested inside an edge query while loading.
- Setters, upserts, updates, deletes, single-entity Save, String methods, panicking variants and the other entities, which repeat the same templates.
- Of a query, the intermediate selector, the path closure and the configuration pointer are not copied by the model or are opaque tokens; elements of slices are opaque tokens too.
- Hooks are data: an edit of the fields, a number of calls to next, the mutation passed on, and a result that depends on the fields and the last inner outcome. Hooks with memory of earlier saves are not covered.
- Go integer widths, time zones, timestamp precision and the bytes of JSON columns; JSON encoding is an abstract round trip that can meet an empty or a garbled document.
- Python's lower(), str() and date parsing, and the parsing of rollout timestamps, are parameters. Objects of an audit report are lists of pairs with distinct names, as a dict has. Numbers of a rollout manifest are finite reals, so NaN, infinities and rounding are not covered.
- Reading files, command lines, signature verification, and the wording of messages and titles; where joining titles raises is modelled.
- AuditGuarantee.AcceptsExact: takes lower() of the empty string to be empty, as it is in Python.
- Joins.TwoRoutesAgree: takes every join row to have its group_id, which the schema makes part of the primary key.
