# Velocity engine control plane: verified model

The control plane turns fraud rules into queries and streams, keeps the live results in memory, fans them out over
WebSockets, stores rules in MySQL and decides who may do what. This project models its stateful core and proves what
the code keeps, for every input and every interleaving.

- **Historical queries** (`Text`, `SqlContext`, `SqlLexer`, `SqlGrammar`, `FilterCompiler`, `FilterLexing`, `FilterMeaning`,
  `FilterFields`, `FilterBuilder`, `HavingGuard`, `QueryAssembly`, `QuotedText`, `SelectList`, `HistoricalQuery`). The filter-tree
  compiler, read back by a tokenizer and a parser for the boolean grammar of section 8.12 of SQL-92 and evaluated in
  three-valued logic; and the query around it, read back clause by clause.
- **Live store** (`LiveRows`, `LiveRuns`, `LiveStore`). The class over heap slices refines a store that scans.
- **Fan-out** (`FanoutEntry`, `Fanout`, `FanoutSafety`, `FanoutWriters`, `FanoutNoGap`, `WsManager`). Consumer, subscribers, writers,
  prunes, disconnects and CloseAll as steps that interleave in any order; and the manager as objects.
- **Rules** (`RuleTables`, `RuleStore`, `RuleLifecycle`, `RuleRuns`, `RuleSteps`, `RuleWindow`). Five tables, saving and loading,
  the handlers one at a time, and the handlers in flight together with failures and restarts.
- **Access** (`PermissionCache`, `JitLimiter`, `Provisioning`, `AdminGuard`).
- **Small state machines** (`AnomalyStore`, `QuerySlot`).

External calls (Kafka, MySQL, DuckDB) succeed or fail freely: in the step systems every outcome is a step, and the methods
take what Kafka and MySQL answer to each statement as parameters. In a step system a step is what one goroutine does under
one lock or in one channel operation or external call; where the code's order is looser than a proof needs, the steps
are looser still: any goroutine may disconnect a connection or close an entry at any time. Where a loop runs over a
map, the proof holds for every order.

## What the code does not keep

- A column named like a reserved word is never quoted, so its fragment does not parse as a test of that column
  (`FilterMeaning.CompilationPreservesMeaning` gives the exact condition).
- A message whose ruleId is present but empty or not text, with an id, is stored under `unknown` and broadcast under the id
  (`Fanout.WhenRulesAgree`), which makes a gap (`FanoutNoGap.GapWhenRulesDiffer`).
- A connection that is connected again while an earlier writer of it can still write, or while CloseAll still holds it,
  can have two writers (`FanoutWriters.ConnectCollidesExactlyWhenUnsafe`).
- Two rows of different groups and windows can share a key, and the later then takes the place of the earlier, exactly when
  one window text is the other with a NUL-terminated text in front (`LiveRows.KeyCollision`, `LiveRows.KeyIsPair`).
- A client can read a newer row before its older snapshot (`FanoutNoGap.BootstrapAmongDeltas`).
- The HAVING guard takes texts that leave a comment open or their parentheses unbalanced, with which the threshold column
  does not keep its shape (`HavingGuard.ThresholdSelfContained`); an open block comment also hides every placeholder
  behind it (`HistoricalQuery.LivePlaceholders`).
- A rule without aggregates gets a select list with two commas in a row, and one without grouping keys a GROUP BY list that
  ends in a comma (`SelectList.DanglingCommas`).
- The comment at internal/handlers/rules.go:391-392 says a row whose delete failed to persist self-corrects when the
  id is reused. It does not: the unique key makes every create of an id that ever had a version fail
  (`RuleLifecycle.RulesHandler.CreateRule`). The code is followed.
- The comment at internal/services/rbac.go:101-107 calls the effect of an invalidation immediate. A fetch that has read
  and not yet written undoes it (`PermissionCache.WriteUndoesInvalidation`). The code is followed.
- A publish that commits during a delete lets a published rule leave memory with no DELETED message
  (`RuleRuns.PublishBeforeRemoval`), and nothing else does (`RuleRuns.PublishedLeavesAfterDeleted`).
- A delete sends nothing for a rule whose record is unpublished, even when Kafka last told the stream jobs to run it
  (`RuleLifecycle.RulesHandler.DeleteRule`). A status call on a rule never published leads there
  (`RuleLifecycle.RulesHandler.ActivateThenDelete`), and so does a restart, which derives the mark from the row's status
  alone (`RuleLifecycle.RulesHandler.Restart`): after an edit the row says DRAFT, and a status call makes the rule run
  again; after a publish whose row update failed it still says what it said before.
- While handlers are in flight, memory and the active row part ways between an edit's or a delete's database write and
  its memory write, and only then (`RuleWindow.RowMatchesOutsideWindow`, `RuleWindow.RowLostInEveryRun`).
- Two admin updates that check together leave no active super admin when they take the only two
  (`AdminGuard.TwoChecksTogether`).
- A bootstrap neither applies the cap nor sorts (`LiveRuns.NewestFirstIsNotPruned`).

## Model

| member | source | states |
|---|---|---|
| `FilterCompiler.ValidateIdentifier` | internal/services/duckdb.go:249-267 | an accepted name is one SQL word, already folded, and holds no placeholder |
| `FilterCompiler.PruneGood` | internal/services/duckdb.go:272-412 | what is left of a filter tree has well-formed conditions and no group of fewer than two parts |
| `FilterBuilder.ParseFilterNode` | internal/services/duckdb.go:272-412 | the recursive builder with its append loops yields exactly the specified text and parameters, and an empty text exactly when nothing usable is left |
| `FilterBuilder.OperatorText` | internal/services/duckdb.go:339-408 | each operator branch emits its predicate and its parameters, or drops the condition |
| `FilterBuilder.GroupParts` | internal/services/duckdb.go:290-303 | the parts kept are the compiled children in order |
| `FilterBuilder.Combine` | internal/services/duckdb.go:312-319 | two or more parts become one parenthesised text, with all parameters in part order |
| `FilterLexing.ReadsPlan` | internal/services/duckdb.go:272-412 | a fragment tokenizes to the same tokens wherever it is spliced in |
| `FilterMeaning.PruneMeaning` | internal/services/duckdb.go:277-310 | dropping unusable conditions, empty groups and one-part groups keeps the three-valued meaning of the tree |
| `FilterMeaning.ParsePlan` | internal/services/duckdb.go:319 | a fragment is one boolean factor of the SQL-92 grammar (section 8.12), so no OR escapes it; it parses as tests of its columns exactly when none is a reserved word |
| `FilterMeaning.EvalPlan` | internal/services/duckdb.go:314-320 | with parameters handed out left to right, the parsed fragment has the meaning of the pruned tree, and every mark is used |
| `FilterMeaning.CompilationPreservesMeaning` | internal/services/duckdb.go:272-412 | compile, parse under SQL precedence, evaluate: the value is the meaning of the filter tree, for every tree; the fragment parses as tests of its columns if and only if they avoid the reserved words |
| `FilterFields.FieldNamesColumn` | internal/services/duckdb.go:241-246 | a condition on a field compiles to the same text and parameters as one on the column it names: the table's word for it, or outside the table itself or what stands behind `_data.` |
| `FilterFields.TestsOfColumn` | internal/services/duckdb.go:352-366 | two such conditions in full: `w IS NULL` without a parameter, `w = ?` with the value |
| `FilterFields.FieldMeaning` | internal/services/duckdb.go:352-409 | the meaning of a condition is its operator's on the cell of the column its field names |
| `FilterFields.ComparisonMeaning` | internal/services/duckdb.go:356-366 | the six comparison operators, by how the database orders cell and value; unknown when it does not |
| `FilterFields.DateMeaning` | internal/services/duckdb.go:399-407 | the three date operators, by how it orders the two times |
| `FilterFields.AsciiIdentifier` | internal/services/duckdb.go:249-267 | exactly which ASCII names are accepted, and that the column is the trimmed name in lower case |
| `FilterFields.CommaTextIsArray` | internal/services/duckdb.go:367-380 | a comma text as the value of IN compiles like the array of its pieces, each without the white space around it, in order |
| `FilterFields.ReservedFieldRejected` | internal/services/duckdb.go:241-267 | for every field that names a reserved column there is a rule whose fragment does not parse as a test of that column, since names are never quoted |
| `HavingGuard.PatternIsClass` | internal/services/duckdb.go:443-445 | the anchored pattern with its repeated group accepts exactly the non-empty texts over its character class |
| `HavingGuard.ParseHavingExpression` | internal/services/duckdb.go:458-490 | accepted text has only class characters and known names and no placeholder; exactly when an expression is rejected |
| `HavingGuard.SafeByCode` | internal/services/duckdb.go:443-445 | the character class by character codes |
| `HavingGuard.NameFound` | internal/services/duckdb.go:448 | no name in a text escapes the check against the aliases |
| `HavingGuard.KeywordsFolded` | internal/services/duckdb.go:451-455 | the words allowed besides aliases, in any mix of cases |
| `HavingGuard.ScriptAccepted` | internal/services/duckdb.go:458-490 | a script of operands joined by `&&`, `||` and `==` is accepted, as the trimmed text with AND, OR and `=` in their places, exactly when that is blank or made of the class and of known names |
| `HavingGuard.ThresholdSelfContained` | internal/services/duckdb.go:913-918 | the threshold column keeps its shape, whatever follows, exactly when the text, its comments skipped, closes no parenthesis it did not open, closes all it did and leaves no comment open |
| `HavingGuard.GuardAcceptsUncontained` | internal/services/duckdb.go:443-490 | of every text the guard takes as it stands and that is kept, it also takes the one with a comment opened behind it and the one with a parenthesis closed behind it, which are not; a closed comment does no harm |
| `SqlContext.KeptIsBalanced` | internal/services/duckdb.go:443-445 | without dashes, slashes and quotes a text is kept exactly when its parentheses never close below zero and end balanced |
| `QueryAssembly.WhereParses` | internal/services/duckdb.go:897-901 | spliced after `AND ` in the WHERE clause and before any text, the fragment joins one conjunction and leaves that text alone, exactly when no column is reserved |
| `QueryAssembly.WhereEvaluates` | internal/services/duckdb.go:923-943 | the two time bounds and then the filter parameters reach the marks they were built for, and the clause holds when the time lies within the bounds and the tree holds |
| `QueryAssembly.PlanMarks` | internal/services/duckdb.go:272-412 | a fragment has as many `?` characters as parameters |
| `SelectList.WindowSeconds` | internal/services/duckdb.go:880-888 | the window in whole seconds: rounded down from the rule's milliseconds or five minutes, at least one |
| `SelectList.ColumnOfField` | internal/services/duckdb.go:806-812 | a grouping or aggregation field stands for the same column as in a filter |
| `SelectList.FnOfName` | internal/services/duckdb.go:853-865 | the aggregate function a name picks, in any mix of cases; an unknown name counts |
| `SelectList.SelectReads` | internal/services/duckdb.go:797-867 | the select list reads, quoted texts included, as windows of that many seconds, the group key with N/A for a missing column, and the aggregates in order |
| `SelectList.ThresholdValue` | internal/services/duckdb.go:913-918 | the threshold column, read as a CASE over the HAVING text, is true exactly when that text is true, false when it is false or unknown, and false without one |
| `SelectList.TailReads` | internal/services/duckdb.go:802-825 | after WHERE the text reads as grouping by the window and the columns, newest window first, limited |
| `SelectList.DanglingCommas` | internal/services/duckdb.go:797-867 | the select list has two commas in a row exactly for a rule without aggregates, and the GROUP BY list ends in one exactly for a rule without grouping keys |
| `HistoricalQuery.BuildAnalysisQuery` | internal/services/duckdb.go:785-943 | the query exists exactly when every grouping and aggregation name is valid; what its text reads as, clause by clause: select list, threshold column and its value over the accepted HAVING text, conjunction up to GROUP, grouping; one `?` per parameter besides the source's own, all seen by the engine exactly when the HAVING text leaves no block comment open |
| `HistoricalQuery.HistogramParses` | internal/services/duckdb.go:1140-1150 | in the histogram query the search condition is the clause joined with the NOT NULL test, up to the closing parenthesis |
| `HistoricalQuery.LivePlaceholders` | internal/services/duckdb.go:923-943 | the same of the text alone, comments and quotes skipped |
| `HistoricalQuery.PlaceholdersMatchParameters` | internal/services/duckdb.go:923-943 | a query has one `?` per parameter exactly when the scanned source names none |
| `HistoricalQuery.WhereStopsAt` | internal/services/duckdb.go:923-936 | the clause after WHERE stops the search condition at GROUP |
| `HistoricalQuery.AppendedConjunct` | internal/services/duckdb.go:1140-1150 | the extra `AND ... IS NOT NULL` of the score histogram joins the conjunction whatever the filter was |
| `HistoricalQuery.BreakdownPlaceholders` | internal/services/duckdb.go:1058-1150 | every breakdown query, the score histogram included, takes the same parameters and has one `?` for each |
| `LiveRows.IndexIsScan` | internal/services/livestore.go:83-94 | the index holds exactly the keys that occur, each at the position a scan for the last match finds |
| `LiveRows.IndexKept` | internal/services/livestore.go:133-136 | an in-place update leaves the index right |
| `LiveRows.KeyIsPair` | internal/services/livestore.go:74-77 | two rows share a key exactly when group and window are the same, unless a NUL makes their window texts confusable |
| `LiveRows.UpsertByPair` | internal/services/livestore.go:118-141 | an Add puts the row in the place of one of its group and window, or at the end when there was none |
| `LiveRows.UpsertIsLatest` | internal/services/livestore.go:118-141 | of a rule's rows an Add leaves exactly those of another group or window, and the new one |
| `LiveRows.UpsertKeepsDistinct` | internal/services/livestore.go:118-141 | an Add keeps keys distinct |
| `LiveRows.KeyCollision` | internal/services/livestore.go:71-77 | two window texts can be confused under some group keys exactly when one is a NUL-suffix of the other |
| `LiveRuns.TrimExact` | internal/services/livestore.go:232-267 | a trim removes exactly the excess, only from the fronts, and never stops while rows and excess remain |
| `LiveRuns.TrimIsFair` | internal/services/livestore.go:232-255 | after any trim a rule that lost rows is no shorter than any other rule by more than the last take from it |
| `LiveRuns.StaleSurvives` | internal/services/livestore.go:203-212 | a row not after the cutoff outlives a prune exactly when an earlier row of its rule is after it or has no readable time |
| `LiveRuns.PruneExact` | internal/services/livestore.go:200-228 | on rows in window order a prune removes exactly those not after the cutoff |
| `LiveRuns.PruneKeepsFresh` | internal/services/livestore.go:200-228 | so a rule in window order keeps exactly its rows after the cutoff |
| `LiveRuns.NewestFirstIsNotPruned` | internal/services/livestore.go:157-164 | a list keeps all its rows exactly when its first is after the cutoff or has no readable time, so rows that stand newest first lose all or none |
| `LiveRuns.UpsertKeepsOrder` | internal/services/livestore.go:108-114 | an in-place update keeps window order when window texts hold no NUL |
| `LiveRuns.AppendKeepsOrder` | internal/services/livestore.go:139-140 | an append keeps window order exactly when the row is not older than the last one |
| `LiveRuns.GroupedFacts` | internal/services/livestore.go:151-164 | a bootstrap splits its rows by rule in the order given and counts every one |
| `LiveRuns.StepCounts` | internal/services/livestore.go:118-267 | every call keeps totalRows equal to the rows held, and an appending Add ends within the cap even after an over-cap bootstrap |
| `LiveRuns.Conservation` | internal/services/livestore.go:118-267 | over every run since the last bootstrap: rows taken in = rows held + dropped + pruned |
| `LiveRuns.StepKeepsDistinct` | internal/services/livestore.go:118-146 | an Add with its trim, and a prune, keep every rule's keys distinct |
| `LiveRuns.RunKeepsDistinct` | internal/services/livestore.go:118-228 | the same over every run of adds and prunes |
| `LiveStore.LiveStore.Add` | internal/services/livestore.go:118-146 | the indexed, in-place upsert with its trim does what the linear-scan store does, and the index stays exact; by fields, the row replaces the one of its group and window in its rule, every other row stays, and then rows leave from the fronts only |
| `LiveStore.LiveStore.RebuildRuleIndex` | internal/services/livestore.go:83-94 | the rebuilt index of a rule is that of its rows |
| `LiveStore.LiveStore.TrimLargest` | internal/services/livestore.go:236-266 | one round of the trim takes up to the excess from the front of a largest rule, and nothing only when no rule is left |
| `LiveStore.LiveStore.TrimExcess` | internal/services/livestore.go:232-267 | the loop terminates and is a greedy trim |
| `LiveStore.LiveStore.PruneStale` | internal/services/livestore.go:200-228 | the pruner removes the longest stale prefix of each rule and keeps index and counter exact |
| `LiveStore.LiveStore.Bootstrap` | internal/services/livestore.go:151-169 | replaces the rows by those given, split by rule |
| `LiveStore.LiveStore.GetAll` | internal/services/livestore.go:172-185 | the held rows of the rules asked for, in storage of their own |
| `LiveStore.LiveStore.ReadThenRun` | internal/services/livestore.go:172-185 | any later run of calls leaves an earlier answer of GetAll as it was, and is the run of just those calls on the value-level store |
| `FanoutEntry.OfferConserves` | internal/services/wsmanager.go:85-94 | an enqueue keeps conservation and the outbox bound |
| `FanoutEntry.WrittenInOrder` | internal/services/wsmanager.go:115-131 | deltas written to one socket are in consume order |
| `FanoutEntry.OfferedIsAcceptedOrRejected` | internal/services/wsmanager.go:85-94 | offered = accepted + rejected |
| `Fanout.NormalisedFields` | internal/services/consumer.go:184-198 | field by field: the rule a message is stored and broadcast under, from its ruleId or without one its id; its group, from groupKey or without one entityValue; window, time and body as they came |
| `Fanout.WhenRulesAgree` | internal/services/consumer.go:184-242 | a message is stored and broadcast under one rule unless its ruleId is present but empty or not text and its id names a rule other than `unknown` |
| `FanoutSafety.EntriesGrow` | internal/services/wsmanager.go:136-171 | entries keep their connection and an exited writer stays exited |
| `FanoutSafety.KeepsRegistered` | internal/services/wsmanager.go:136-171 | the manager's map and CloseAll's copy name entries of the right connections through every step |
| `FanoutSafety.KeepsConserving` | internal/services/wsmanager.go:85-131 | every step keeps conservation on every entry |
| `FanoutSafety.KeepsOrdered` | internal/services/wsmanager.go:196-226 | every step keeps offered deltas in consume order, each once per entry |
| `FanoutSafety.OutboxesInEveryRun` | internal/services/wsmanager.go:26 | in every interleaving: accepted = written ++ in flight ++ queued, queue at most 256, written deltas in consume order |
| `FanoutSafety.CloseFrameAfterWriter` | internal/services/wsmanager.go:247-268 | in every interleaving CloseAll writes a close frame only after that entry's writer has exited |
| `FanoutWriters.KeepsQuiet` | internal/services/wsmanager.go:136-171 | connects that find earlier writers unable to write, and CloseAll not holding the connection, keep all but the last writer of each connection so |
| `FanoutWriters.SingleWriterInEveryRun` | internal/services/wsmanager.go:115-131 | in every interleaving of such connects, re-Connects among them, at most one party is inside a write on a connection |
| `FanoutWriters.ConnectCollidesExactlyWhenUnsafe` | internal/services/wsmanager.go:136-171 | from every such state, a connect of an unregistered connection can lead to two writers exactly when an earlier writer of it can still write (mid-write, or with a message queued or about to be offered) or CloseAll still holds it |
| `FanoutWriters.TimeoutLeavesUnsafe` | internal/services/wsmanager.go:256-265 | whenever CloseAll gives up on a writer inside a write, its disconnect leaves the connection free and unsafe to connect |
| `FanoutWriters.UnsafeIsReachable` | internal/services/wsmanager.go:256-265 | a run to such a state from the start, for every connection |
| `FanoutNoGap.KeepsCovered` | internal/services/livestore.go:118-267 | every consumed row is held, superseded by a later row of its key, or evicted, through every step |
| `FanoutNoGap.EvictionIsRemoval` | internal/services/livestore.go:200-267 | a row counts as evicted only when a prune, a bootstrap or an Add that had to trim took it out of the store |
| `FanoutNoGap.KeepsSessions` | internal/handlers/websocket.go:129-137 | every step keeps what a snapshot and the deltas after it say of a live subscription |
| `FanoutNoGap.NoGapInEveryRun` | internal/handlers/websocket.go:129-137 | in every interleaving a subscriber misses no message of its rules: its row is in the snapshot, or a later one of the same rule, group and window took its place or it was evicted by then, or its delta is offered or about to be |
| `FanoutNoGap.GapWhenRulesDiffer` | internal/services/consumer.go:232-242 | every message stored and broadcast under different rules makes a gap for a subscriber of the first |
| `FanoutNoGap.BootstrapAmongDeltas` | internal/handlers/websocket.go:129-137 | in every interleaving the bootstrap carries GetAll's answer, and a delta newer than that answer stands before it exactly when enqueued between the two |
| `FanoutNoGap.NewerBeforeBootstrap` | internal/handlers/websocket.go:129-137 | that can happen to every subscription between the two, with any row of one of its rules |
| `WsManager.WsEntry.Enqueue` | internal/services/wsmanager.go:85-94 | never blocks; a full outbox rejects, an open one with room accepts |
| `WsManager.WSManager.Connect` | internal/services/wsmanager.go:136-157 | a registered connection only changes its rules; a new one gets a fresh entry; other entries are untouched |
| `WsManager.WSManager.Disconnect` | internal/services/wsmanager.go:161-171 | removes and stops at most that connection's entry; safe to repeat |
| `WsManager.WSManager.WriteToConn` | internal/services/wsmanager.go:178-189 | queues for one connection only; an unknown connection is no error |
| `WsManager.WSManager.Broadcast` | internal/services/wsmanager.go:196-226 | offers the message exactly once to every subscribed entry, to no other, and counts the rejections |
| `RuleTables.NormalKeeps` | internal/services/rule_store.go:103-138 | which fields of a definition survive a save and a load: all, but for the hint made two-valued, absent sinks made all-off, and windowing where its table is missing |
| `RuleTables.NormalIsFixed` | internal/services/rule_store.go:103-138 | what a save and a load keep of a definition is unchanged by a second save and load |
| `RuleTables.TakenIsRange` | internal/migrations/mysql/0002_init_rules_store.sql:43 | a (rule_id, version) pair is taken exactly for versions 1..n |
| `RuleTables.OneActive` | internal/migrations/mysql/0002_init_rules_store.sql:101-105 | no two rows of one rule are active |
| `RuleTables.VersionAt` | internal/services/rule_store.go:65-73 | a row's version is its place among the rows of its rule |
| `RuleTables.SaveKeepsHistory` | internal/services/rule_store.go:54-76 | a save that the unique key lets through, of a version no later than the next, is the next version and its one active row |
| `RuleTables.UpdateKeepsHistory` | internal/services/rule_store.go:147-163 | status updates keep versions and the active row's place |
| `RuleStore.Database.SaveNewRuleVersion` | internal/services/rule_store.go:31-138 | it commits exactly when every statement it needs is accepted and the version is free: then, row by row, the new version is there and the rule's earlier rows are inactive; otherwise nothing changes |
| `RuleStore.Database.UpdateRuleStatusInPlace` | internal/services/rule_store.go:147-163 | accepted, it changes the active rows of the rule and no other, in status and on request in activity |
| `RuleStore.FaithfulRuns` | internal/services/rule_store.go:31-163 | after any saves, status updates and a late provisioning of window_configs, every active row with its side rows says its rule's last save |
| `RuleStore.AggsInOrder` | internal/services/rule_store.go:303-323 | spec_order brings aggregations back in their saved order from the joined answer |
| `RuleStore.LoadActiveRules` | internal/services/rule_store.go:175-404 | it succeeds exactly when its queries are answered; from any legitimate answers, exactly the rules with an active row come back, each as its last saved definition, normalised, under its current status |
| `RuleLifecycle.RulesHandler.CreateRule` | internal/handlers/rules.go:101-175 | succeeds exactly for a rule that is not refused, whose id is not in memory and never had a saved version, when MySQL accepts the save; what tables and memory then hold; otherwise nothing changes |
| `RuleLifecycle.RulesHandler.UpdateRule` | internal/handlers/rules.go:437-514 | saves the next version as DRAFT and keeps the published mark exactly when nothing refuses it and MySQL accepts; each refusal has its exact condition |
| `RuleLifecycle.RulesHandler.PublishRule` | internal/handlers/rules.go:223-284 | Done exactly when Kafka acknowledges ACTIVE; memory then says ACTIVE and published, and when MySQL accepts the statement every active row of the rule says so too and no other row changes |
| `RuleLifecycle.RulesHandler.UpdateRuleStatus` | internal/handlers/rules.go:292-351 | the same for the status asked for, ACTIVE or PAUSED, with the published mark as it was |
| `RuleLifecycle.RulesHandler.DeleteRule` | internal/handlers/rules.go:354-405 | a published rule leaves memory exactly when Kafka acknowledges DELETED, any other one always; its active rows are then DELETED and inactive if MySQL accepts; a delete leaves a rule last told ACTIVE exactly when it was told so and its record is unpublished |
| `RuleLifecycle.RulesHandler.ActivateThenDelete` | internal/handlers/rules.go:342-399 | a status call on an unpublished rule, then a delete, leaves the rule last told ACTIVE |
| `RuleLifecycle.RulesHandler.Restart` | internal/handlers/rules.go:45-55 | memory is rebuilt from the active rows exactly when MySQL answers, and empty otherwise; every mark is derived from the row's status |
| `RuleLifecycle.Refusals` | internal/handlers/rules.go:122-142 | what a create and an edit of a windowed rule are refused for |
| `RuleLifecycle.NamedIsDraft` | internal/handlers/rules.go:117-145 | a rule is saved as a DRAFT, named by its id when its name is blank |
| `RuleLifecycle.SoundVersion` | internal/handlers/rules.go:437-514 | one at a time, a rule in memory at version v has row v, its latest, active |
| `RuleLifecycle.SavedSound` | internal/handlers/rules.go:150-172 | a save followed by the memory write keeps memory, tables and Kafka log in agreement |
| `RuleLifecycle.LoadSound` | internal/services/rule_store.go:391-401 | a load makes a memory that agrees with the tables and claims only what Kafka acknowledged |
| `RuleRuns.KeepsInv` | internal/handlers/rules.go:101-514 | every step of handlers in flight, with any failure or restart, keeps versions, claims and calls right |
| `RuleRuns.KafkaBeforeClaim` | internal/handlers/rules.go:252-278 | in every interleaving ACTIVE or PAUSED, in memory or in a row, is preceded by an acknowledged message of that status for that rule; versions stay 1..n with only row n active |
| `RuleRuns.PublishedLeavesAfterDeleted` | internal/handlers/rules.go:364-399 | from a delete's read to its removal, with no restart and no committed publish of that rule, the record is published only if this delete's DELETED was acknowledged |
| `RuleRuns.PublishBeforeRemoval` | internal/handlers/rules.go:364-399 | a publish committed before any pending removal that read the mark as unset lets the published record leave memory with nothing acknowledged since but ACTIVE |
| `RuleRuns.RemovalIsReachable` | internal/handlers/rules.go:364-399 | a run to such a pending removal, for every rule |
| `RuleSteps.UninterruptedStatus` | internal/handlers/rules.go:223-351 | from any state of the interleaved handlers, the steps of a publish or status change that nothing interrupts do to Kafka, rows and record what the handler does alone |
| `RuleSteps.UninterruptedDelete` | internal/handlers/rules.go:354-405 | the same of a delete |
| `RuleSteps.UninterruptedCreate` | internal/handlers/rules.go:101-175 | the same of a create whose first version is free |
| `RuleSteps.UninterruptedEdit` | internal/handlers/rules.go:437-514 | the same of an edit whose next version is free |
| `RuleWindow.RowMatchesOutsideWindow` | internal/handlers/rules.go:374-399 | in every interleaving a rule in memory has its version's row active, except between the database write and the memory write of an edit or a delete of it |
| `RuleWindow.RowLostInEveryRun` | internal/handlers/rules.go:485-511 | in every run a step parts a rule in memory from its active row exactly when it is a successful save of its next version or a successful row update of its delete |
| `PermissionCache.KeepsInv` | internal/services/rbac.go:63-113 | every interleaved cache access and query keeps cache entries traceable to a state of MySQL |
| `PermissionCache.AnswersAreFresh` | internal/services/rbac.go:63-99 | every successful answer is a set MySQL held at most max(TTL, maxStale) plus that fetch's duration ago |
| `PermissionCache.InvalidationIsFinal` | internal/services/rbac.go:108-113 | after an invalidation that meets no unwritten fetch of the user, later calls never answer with data read before it |
| `PermissionCache.WriteUndoesInvalidation` | internal/services/rbac.go:95-98 | otherwise, in any run, that fetch's write can make a later call answer with what was read before the invalidation |
| `PermissionCache.RbacCache.GetUserPermissions` | internal/services/rbac.go:63-99 | one call alone: hit, refusal, unreachable with and without a fresh enough entry, and refresh |
| `PermissionCache.UninterruptedCall` | internal/services/rbac.go:63-99 | from any state, the steps of a call that nothing interrupts give that answer and that cache |
| `JitLimiter.Limiter.Limited` | internal/services/rbac.go:225-236 | counts the attempt in its window and refuses beyond the limit |
| `JitLimiter.TraceSpaced` | internal/services/rbac.go:230-233 | windows follow one another more than a window apart and hold their attempts |
| `JitLimiter.AdmissionBounds` | internal/services/rbac.go:217-236 | at most limit admitted per address and window, at most twice that in any interval no longer than a window |
| `JitLimiter.DoubleBurst` | internal/services/rbac.go:225-236 | the second bound is reached for every limit and window of at least one |
| `Provisioning.WhenEmailsCollide` | internal/services/rbac.go:306-309 | two subjects get one e-mail address exactly when one is the other's placeholder address |
| `Provisioning.Directory.GetOrProvision` | internal/services/rbac.go:252-336 | a known subject is never counted; a new one becomes one active analyst exactly when it is admitted, its address is free and MySQL accepts the transaction; nobody is half provisioned |
| `AdminGuard.AdminPanel.UpdateUser` | internal/services/admin.go:243-305 | which check answers a call, given what MySQL answers; an update patches the target's row alone, evicts its entry from the permission cache and leaves an active super admin if there was one; otherwise nothing changes |
| `AdminGuard.AdminRemains` | internal/services/admin.go:257-266 | an update that passes the checks leaves an active super admin |
| `AdminGuard.AdminSurvives` | internal/services/admin.go:243-305 | the same over any sequence of one-at-a-time calls |
| `AdminGuard.TwoChecksTogether` | internal/services/admin.go:257-268 | two calls checked on the same users leave nobody exactly when they demote or disable the only two active super admins, one each |
| `AnomalyStore.AnomalyStore.Add` | internal/services/anomaly_consumer.go:29-39 | the buffer is the last maxLen events ever added |
| `AnomalyStore.AnomalyStore.GetRecent` | internal/services/anomaly_consumer.go:42-67 | the backward scan with its in-place reversal is the last n matching events of the last maxLen, in arrival order |
| `AnomalyStore.AnomalyStore.ReverseInPlace` | internal/services/anomaly_consumer.go:63-65 | reverses the array |
| `QuerySlot.RequestKeeps` | internal/services/duckdb.go:785-790 | a request's slot, row sets and deferred calls stay matched through every step |
| `QuerySlot.SlotMoves` | internal/services/duckdb.go:657-673 | the slot's fill moves with the request's hold, and only a holder changes the connection |
| `QuerySlot.OneHolder` | internal/services/duckdb.go:588-673 | in every interleaving at most one holder, only it touches the connection, and a returned request released as often as it acquired |
| `QuerySlot.ReleaseAfterRows` | internal/services/duckdb.go:1040-1119 | in every interleaving no row set of a request is open when it releases, once |

## Left out

- The field-name table, the dialect's reserved words beyond the grammar's own, the list of financial codes and the
  Unicode tables beyond ASCII are parameters: results hold for any of them (a non-empty list of codes).
- What DuckDB computes for a comparison, a text function, a cast or a regular expression is an uninterpreted function;
  aggregation results, the Iceberg scan and its dedup, and the contents of breakdown rows are not modelled.
- HistoricalQuery.LivePlaceholders: for a scanned source that ends in code and holds no end of a block comment. Block
  comments nest; dollar-quoted text and double-quoted names are not read, as the emitted text has none.
- JSON and `%v` formatting, calendar arithmetic and the conversion of date filter values: numbers are integers, a window's
  time is a parsed integer or absent, and filters are stored and loaded as they are.
- QuerySlot.OneHolder: the slot protocol is a step system over values, not an object with channels; a panic on a return
  path is not modelled.
- FanoutWriters.SingleWriterInEveryRun: for runs whose connects meet the exact condition, as it fails otherwise; writer
  goroutines and CloseAll are steps, since Dafny has no goroutines, and the heap classes of `WsManager` cover the
  manager's own methods only.
- RuleLifecycle.SoundVersion: agreement between memory and the active row at every moment is for handlers one at a time,
  as handlers drop their lock between reading and committing; `RuleWindow` has the interleaved result.
- AdminGuard.AdminSurvives: for one-at-a-time calls, as the count is read outside the transaction.
- Provisioning.Directory.GetOrProvision: two requests provisioning one subject at the same moment, and the audit row.
- A slice that grows within its spare capacity is modelled as new storage; no slice of the store is ever shared.
- Text comparisons are exact, where MySQL's default collation ignores case; column widths and integer ranges beyond a
  failing statement, and a commit that succeeds although it reports an error, are not modelled.
- Absent and empty lists of a rule are one value; `description` and the timestamps of rule rows are not kept.
- Metrics, logging, configuration, CORS, middleware, heartbeats' timing, the list endpoints, rule naming, reconnect
  backoff and the teams schema: one-branch behaviour or not used by the code modelled here.
