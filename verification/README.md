# Sierx: a verified model of its store, ranks, lifecycle journal and query language

Sierx keeps work items in a tree. This project models the four parts whose correctness is not
visible in any single function, and proves what they promise over every input and every run.

**The unit of work** (`Uuids`, `Paths`, `Items`, `Rollups`, `Changes`, `UnitOfWork`, `Outcomes`,
`RollupColumns`, `Store`, `Rebirth`, `Mutations`, `History`). A mutation reserves event numbers under the counter lock, checks
expected versions, applies a list of changes (insert, update, subtree move, delete, link, comment),
recomputes the rollups of the dirty ancestors and writes the events. Paths are id lists with their
dotted text; SQL statements are functions on maps. `Mutated` is the meaning of one mutation; the
methods of `Store` run it with the source's loops and lists and are proved equal to it. `Outcomes`
and `RollupColumns` say what that meaning is column by column, without the functions it is built of:
which mutations are refused, what each kind of change writes, and what stands in a rollup. `History`
interleaves such transactions and the readers of the event log. Hard deletion and reinsertion of one
id inside a single mutation is the one case in which the rollup cache ends up wrong; the exact
condition, a test on the list of changes alone that rules it out, and a concrete mutation are
proved. The `Mutation` constructors cannot produce it.

**Ranks** (`RankKeys`, `RankSequence`, `RankList`, `RankMeaning`). Ranks are texts over 36 symbols, read as base-36
fractions. Text order and fraction order differ exactly on trailing zeros, and on exactly those
pairs `RankBetween` does not return. Every history of appends, moves, removals and respreads keeps a
project's ranks positive and ascending as fractions, so every call that is made returns. The comment
at `internal/store/rank.go:47` promises the shortest string of the interval. The code keeps that
promise on some bounds and not on others, and the model follows the code: the exact tests on the
bounds are proved, for the interval of texts (`ShortestTextIff`) and for the interval of fractions
(`ShortestFractionIff`), with a5 and b5 as a pair that fails both.

**The lifecycle journal** (`Journal`, `Lifecycle`, `LifecycleCommand`, `LifecycleRefusal`). Journal,
checkpoint and database are three durable stores, advanced in that order, with crashes between any
two steps, torn lines, and restores of any earlier database backup. `Lifecycle` is the step relation
and its invariant; `LifecycleCommand` has the commands and the request guard as methods of classes
that own the stores. Applying a decision also checks tables that ordinary work changes and a restore
takes back, so these are part of the database and the checks are a parameter: replay and recovery
reach the journal's head exactly when each pending decision is admitted on the tables its
predecessors leave, and otherwise nothing changes, however often they are repeated. `Append` accepts
a line of exactly 2 MiB which the scanner cannot read back; the exact boundary is proved.

**Queries and paging** (`Sql`, `Sxq`, `SxqCompile`, `SxqCompiler`, `SxqNarrow`, `SxqLexer`,
`SxqParser`, `SxqPrint`, `SxqAccepted`, `SxqLiteral`, `SxqCase`, `SxqGlossary`, `ItemJoins`,
`ItemTables`, `Keyset`, `CursorTokens`, `ItemPages`, `ListingOrder`, `ListingExample`, `IdPages`,
`EditDistance`). The target of the
compiler is a syntax tree with numbered placeholders and three-valued evaluation on a joined row.
`ListingIsExact` puts everything together: the pages of the real statement (compiled with narrowed
field definitions, pruned joins, keyset predicate, placeholders after the caller's five) joined
together are the sorted list of exactly the items that satisfy the query as written. `SxqGlossary` ties every word, sign and column of the language to what it stands for. Queries can be
written in any case, with one exception that the code makes: the unit of a duration behind `now()` is
read only in lower case (`internal/sxq/parser.go:216`), so `7d` is seven days and `7D` is refused;
`SxqCase` proves the rule and the exception. Two limits of
the code appear as conditions: an empty quoted string acts as the end of a query, and a cursor whose
token is longer than 8192 characters (more than 6112 bytes of JSON, so any sort text of 6053
characters) is refused by `DecodeCursor` although `EncodeCursor` hands it out.

Cryptography is ideal: a hash determines the line it was taken of, a sealed line opens only under
the key, instance and previous hash it was sealed with, and a checkpoint authenticates only under
its key. The database's casts, collation, full-text matching and the number and date checks of Go's
libraries are parameters; `SoundWorld` and `Carries` say what the listing needs of them, and
`ListingExample` shows that this can be had.

`dafny verify dfyconfig.toml` checks the whole project.

## Model

| member | source | states |
|---|---|---|
| RankKeys.BelowSortsFirst | internal/store/rank.go:10-48 | a smaller base-36 fraction sorts first as text, so the database lists ranks in fraction order |
| RankKeys.TextLessCases | internal/store/rank.go:50-73 | text order is fraction order except that a text padded with zeros sorts after the same fraction |
| RankKeys.DescentNeverEndsIff | internal/store/rank.go:66-92 | the descent through the shared prefix is endless exactly when the upper bound is the lower one followed by zeros |
| RankKeys.BetweenIsStrict | internal/store/rank.go:50-92 | misordered bounds are refused, zero-padded ones never return, and every other result lies strictly between its bounds, in both orders, at most one digit longer than the longer bound |
| RankKeys.DescentNeverEndsExample | internal/store/rank.go:66-92 | a and a0 are such a pair of bounds |
| RankKeys.ShortestTextIff | internal/store/rank.go:44-92 | the result is as short as any text that sorts between the bounds exactly when a test on the bounds passes: no room before the last digit of an open bound; or, at the first difference d, a wide gap and a lower bound of at least d digits, or a gap of one, a longer lower bound and an upper bound that ends at d |
| RankKeys.ShortestFractionIff | internal/store/rank.go:44-92 | the same for the fractions between the bounds: no room before the last digit of an open bound, or a wide gap at the first difference, or nothing but zeros behind it in the upper bound |
| RankKeys.NotTheShortest | internal/store/rank.go:44-92 | a5 and b5 are bounds that fail both tests: the result is ak, and b lies between them |
| RankKeys.RankBetween | internal/store/rank.go:50-92 | the two nested loops compute that result and end on all bounds that are not zero-padded |
| RankMeaning.BetweenIsMiddle | internal/store/rank.go:50-92 | the digits of the result: those of the lower bound up to the first difference and the middle of the room there, or past its z digits the middle of the room above the next one; with open bounds n, one more in the last digit, or an n appended |
| RankSequence.EvalEncode | internal/store/rank.go:130-137 | base-36 evaluation inverts encoding |
| RankSequence.EncodeEval | internal/store/rank.go:130-137 | encoding inverts evaluation on texts of that width |
| RankSequence.SequenceSpreads | internal/store/rank.go:98-120 | the ranks have one width, ascend as texts and as fractions, and leave the all-zero and the all-z ends unused |
| RankSequence.SequenceIsEven | internal/store/rank.go:98-120 | the first rank and every gap have one size, which is the largest that leaves both ends free with n ranks, and 1 when only that fits |
| RankSequence.WidthIsLeast | internal/store/rank.go:98-110 | the width is the least that leaves room |
| RankSequence.RankSequence | internal/store/rank.go:98-120 | the loops return that sequence for every n, and nothing for n below 1 |
| RankList.RespreadIsTheRemap | internal/store/mutate.go:545-557 | the pointwise map from old to new ranks is accepted exactly when 40 digits suffice and then spreads the rows in their order |
| RankList.RespreadAscends | internal/store/mutate.go:545-557 | a respread keeps the order of a project's items |
| RankList.AppendPlaces | internal/store/mutate.go:509-543 | a new item comes last and nothing else changes its place, also when the project is respread first |
| RankList.NeighboursOfSlot | internal/store/mutate.go:467-485 | the scan finds the ranks on both sides of the slot after the named neighbour, and fails exactly when there is none |
| RankList.MovePlaces | internal/store/mutate.go:465-503 | below 36^39 items a move is refused exactly for a neighbour outside the project; otherwise the item lands just after it, the others keep their order, and the second attempt never fails |
| RankMeaning.MoveMeans | internal/store/mutate.go:465-503 | a move of one of a project's items is refused exactly when the named neighbour is itself or none of the project; otherwise the item stands directly behind its neighbour, or first, and of any two others the same one stands before |
| RankMeaning.RespreadIff | internal/store/mutate.go:522-535 | a new item causes a respread exactly when its rank would have more than 40 digits |
| RankMeaning.MoveRespreadIff | internal/store/mutate.go:489-501 | a move respreads its project, once, exactly when the rank between its neighbours would have more than 40 digits |
| RankList.MoveAscends | internal/store/mutate.go:465-503 | at any size a move returns and leaves the ranks ascending |
| RankList.MoveRank | internal/store/mutate.go:465-503 | the two-attempt loop computes that move |
| RankList.RankForNewItem | internal/store/mutate.go:509-543 | the code for new items computes the append |
| RankList.EveryHistoryAscends | internal/store/mutate.go:465-557 | ranks stay positive and ascending over every history of a project |
| Uuids.ParseInvertsText | internal/store/rollup.go:28-50 | the text of an id parses back to it |
| Paths.SplitInvertsDotted | internal/store/rollup.go:28-50 | splitting a dotted path at its dots gives its labels |
| Paths.TextTestIsAncestry | internal/store/mutate.go:613-618 | the text test is true exactly of a path and those below it |
| Paths.DotsGiveDepth | internal/store/mutate.go:440-447 | counting dots gives the depth the move is checked with |
| Items.MoveKeepsForest | internal/store/gen/item.sql.go:357-371 | a move that passes the checks keeps every path equal to its parent's path plus the own id, for the whole moved subtree, without cycles and at most 8 deep, and the row trigger accepts it |
| Items.MoveKeepsSubtreeShape | internal/store/gen/item.sql.go:357-371 | inside the moved subtree, who is below whom does not change |
| Items.InsertKeepsForest | internal/store/mutate.go:303-379 | an insert the row trigger accepts keeps the forest |
| Items.DeleteKeepsForest | internal/store/gen/item.sql.go:190-196 | deleting an item without children keeps the forest |
| Items.LabelsAreDistinct | internal/store/mutate.go:314-329 | no id occurs twice on a path |
| Rollups.AggregateMeaning | internal/store/gen/rollup.sql.go:143-176 | the aggregate counts live descendants and the done ones, and its dates are their least start and greatest due date |
| Rollups.PointsMeaning | internal/store/gen/rollup.sql.go:143-176 | the points columns are the sums over the live, or the live and done, descendants that have points, in whatever order they are listed, and null when there is none |
| Rollups.ComputeRollup | internal/store/gen/rollup.sql.go:105-136 | aggregating row by row gives the fresh aggregate, in whatever order rows come |
| RollupColumns.CountColumns | internal/store/gen/rollup.sql.go:105-136 | in a sound database an item's stored counts are the numbers of live items, and of live and done items, that have it on their path |
| RollupColumns.DateColumns | internal/store/gen/rollup.sql.go:105-136 | the stored dates are the least start date and the greatest due date of those items, and null when none has one |
| RollupColumns.PointsColumns | internal/store/gen/rollup.sql.go:105-136 | the stored points are the sums over those items, and over the done ones, that have points, and null when none has |
| Rollups.MoveKeepsLive | internal/store/mutate.go:448-464 | a move leaves the live descendants, and their facts, of every item that is above none of the touched paths |
| Rollups.NamedAboveIsDirty | internal/store/rollup.go:28-50 | the labels cut from the touched texts name exactly the dirty ancestors |
| Rollups.DirtyAncestors | internal/store/rollup.go:28-50 | the two loops return each id on a strict prefix of a touched path once |
| Changes.ApplyTracks | internal/store/mutate.go:173-251 | every kind of change keeps the forest, the rank lists and the freshness of every item that is above no touched path so far |
| Outcomes.InsertWrites | internal/store/mutate.go:303-379 | an insert adds one live row at version 1 with the given columns, directly below its parent's path, and changes other rows at most in their version |
| Outcomes.InsertFailsIff | internal/store/mutate.go:303-379 | an insert is refused exactly for a taken id, a parent that is absent, of another project or 8 deep, or a rank list that refuses it |
| Outcomes.InsertVersions | migrations/0014_lifecycle_controls.sql:642-643 | an insert leaves every other version alone, except that a respread raises each of the project by one |
| Outcomes.UpdateWrites | internal/store/mutate.go:381-412 | an update writes exactly the columns it was given, the stamp and the version, in one row |
| Outcomes.SoftDeleteWrites | internal/store/mutate.go:200-207 | a soft delete marks a live row and nothing else, and is refused for any other |
| Outcomes.HardDeleteWrites | internal/store/mutate.go:209-221 | a hard delete removes the row and its rollup, and is refused exactly while a child, a link or a comment refers to it |
| Outcomes.LinkWrites | internal/store/mutate.go:223-247 | a link stands from the item to the other; it is refused exactly for a taken id, a missing end, a link to itself, an unknown kind or a repetition; of the items only the stamped one changes |
| Outcomes.UnlinkWrites | internal/store/mutate.go:234-247 | the link of that id is gone, whether it was there or not, and the others stay |
| Outcomes.CommentWrites | internal/store/mutate.go:238-247 | a comment is added live to an item that exists, under an id that is free |
| Outcomes.CommentEditWrites | internal/store/mutate.go:238-247 | an edit goes through exactly for a live comment of the item, and leaves every comment where it is |
| Outcomes.CommentDeleteWrites | internal/store/mutate.go:238-247 | a delete goes through exactly for a live comment of the item, and marks that one only |
| Outcomes.MoveAllowedIff | internal/store/mutate.go:415-446 | a move passes exactly when the new parent is live, of the same project and not at or below the item, and no item of the subtree ends deeper than 8 |
| Outcomes.MoveWrites | internal/store/mutate.go:447-464 | each item with the moved one on its path gets the new parent's path and its own tail, the stamp and a higher version; no other item changes beyond its version |
| Outcomes.MoveVersions | migrations/0014_lifecycle_controls.sql:642-643 | a move raises the versions of its subtree by one, and a respread those of the whole project by one more |
| Outcomes.StampIsLast | internal/store/mutate.go:156-181 | a change stamps with the number of the last event registered for its item, by this or any later change |
| UnitOfWork.ItemSeqCovers | internal/store/mutate.go:156-171 | an item's number is at least that of each of its own events |
| UnitOfWork.AllTrack | internal/store/mutate.go:173-251 | the loop over the changes keeps that invariant |
| UnitOfWork.MutatedIsSoundIff | internal/store/mutate.go:130-300 | after any committed mutation paths form a forest, ranks ascend and events are numbered 1 to the counter; every item has one rollup row equal to a fresh aggregate exactly when no item hard-deleted and inserted again has live descendants at the end |
| UnitOfWork.MutatedIsSound | internal/store/mutate.go:130-300 | so all of that holds after any committed mutation that reinserts no hard-deleted id |
| UnitOfWork.MutatedCacheIff | internal/store/mutate.go:253-272 | the rollups are right exactly when no item hard-deleted and inserted again has live descendants at the end |
| UnitOfWork.RebirthLeavesStaleRollup | internal/store/mutate.go:253-272 | a concrete mutation commits and leaves a stale rollup |
| Rebirth.CacheRightWithoutAdoption | internal/store/mutate.go:253-272 | the rollups are right whenever no change behind a reinsertion names the reborn id as a parent |
| UnitOfWork.RecomputeNeverAborts | internal/store/mutate.go:253-272 | the rollup phase fails only over an item created and deleted in the same mutation |
| UnitOfWork.MutatedStamps | internal/store/mutate.go:156-251 | change_seq is unchanged or in the allocated block, covers each of the item's own events, and never goes back |
| UnitOfWork.MutatedVersions | internal/store/mutate.go:173-251 | versions never fall, and every change of a surviving item raises its version |
| Outcomes.RefusedIff | internal/store/mutate.go:137-154 | a mutation whose changes all carry events ends in a version conflict exactly when some expected item is absent, deleted, or stands at another version; the empty mutation and the one without events are refused in exactly those cases |
| Outcomes.EventsAreLogged | internal/store/mutate.go:274-290 | a commit appends each change's events in order, with its item, its text and the next number, and leaves the log before them as it was |
| Outcomes.SoundTree | internal/store/mutate.go:314-329 | in a sound database an item's path is its own id below its parent's path, within one project and 8 levels |
| Outcomes.SoundRanks | internal/store/mutate.go:465-557 | in a sound database each project's rank list has exactly its items, each once, with ranks that ascend as texts |
| Store.AssignSeqs | internal/store/mutate.go:156-171 | the nested loops number the events consecutively and find each item's highest number |
| Store.MoveSubtree | internal/store/mutate.go:414-464 | the move code performs the subtree move and lists the touched paths |
| Store.ApplyChanges | internal/store/mutate.go:173-251 | the loop over the changes computes the model's state and collects exactly its touched paths, created and deleted ids |
| Store.RecomputeRollups | internal/store/rollup.go:55-66 | one dirty id after another that was not hard-deleted gets its fresh aggregate, no other row changes, and an id without an item fails |
| Store.Flush | internal/store/mutate.go:130-300 | the whole flush computes the mutation's meaning |
| Store.Store.Mutate | internal/store/mutate.go:92-126 | the database becomes the mutation's result, or stays as it was on any error |
| Mutations.RegisteredHasNoRebirth | internal/store/events.go:196-365 | what the exported constructors register never reinserts a hard-deleted item, so every mutation they build keeps the database sound |
| Mutations.RegisteredHasEvents | internal/store/events.go:196-365 | and never carries a change without an event |
| Mutations.Mutation.Run | internal/store/mutate.go:92-126 | the first builder error stops the mutation; otherwise the store applies what was registered |
| History.EveryInterleaving | internal/store/gen/workspace.sql.go:14-35 | with transactions interleaving under the counter lock, committed events are always numbered 1 to the counter, and each reader has received every event up to its cursor once and in order |
| History.ReadPage | internal/api/changes.go:33-55 | the row loop returns the next events and the new cursor |
| History.PageIsSlice | internal/api/changes.go:33-55 | a page is the slice of the log behind the cursor |
| History.VersionOnlyRises | internal/store/mutate.go:137-154 | over any commits an item's version rises with each one that writes it |
| History.NoLostUpdateInRuns | internal/store/mutate.go:137-154 | over any interleaving, of two mutations that expect the same version of an item, of which the first writes it, at most one commits unless the item was hard-deleted between |
| History.ExpectationsHeldInRuns | internal/store/mutate.go:137-154 | over any interleaving, a mutation that commits found every item it expected live and at exactly the version it expected |
| Journal.Load | internal/lifecycle/journal.go:138-201 | one pass accepts exactly the readable, chained journals that pass through the checkpoint, and returns their records |
| Journal.LoadsIff | internal/lifecycle/journal.go:138-201 | what is accepted, spelled out: at most 128 MiB, lines below 2 MiB, each sealed under the key and chained by instance, number and hash to the one before it, and a checkpoint of the same key on one of the lines or the start |
| Journal.CheckpointFixesPast | internal/lifecycle/journal.go:138-201 | two journals accepted under the same checkpoint have the same lines up to it |
| Journal.AppendThenLoad | internal/lifecycle/journal.go:314-366 | an appended line loads again exactly when it is shorter than the scanner's buffer |
| Journal.BytesAdd | internal/lifecycle/journal.go:330-337 | every line takes its own bytes and a newline of the capacity, wherever it stands |
| Journal.BoundaryLineIsLost | internal/lifecycle/journal.go:330-331 | a line of exactly the limit is accepted and never read back |
| Journal.PrefixIsOnChain | internal/lifecycle/database.go:33-42 | Prefix accepts exactly the heads the journal went through |
| Journal.NextDecisionApplies | migrations/0014_lifecycle_controls.sql:249-372 | on a database that lies on the journal the next decision applies exactly when its tables admit it |
| Journal.ReplayedStep | internal/lifecycle/database.go:43-53 | replaying the rest succeeds exactly when the next decision applies and the rest behind it replays |
| Journal.Replay | cmd/sierxctl/lifecycle.go:111-121 | the replay loop brings a database on the journal to its head, each decision once and in order, exactly when each is admitted on the tables its predecessors leave |
| Lifecycle.StepKeepsInv | cmd/sierxctl/lifecycle.go:78-155 | every step, crash and restore keeps the three stores on one chain |
| Lifecycle.StoresStayOrdered | cmd/sierxctl/lifecycle.go:78-155 | in every state of every run the database is at most at the checkpoint, the checkpoint at most one behind the journal, and the database has applied exactly a prefix of the journal |
| Lifecycle.CheckpointNeverGoesBack | internal/lifecycle/journal.go:285-312 | over every run the journal only grows and the checkpoint never moves backwards |
| Lifecycle.AdmittedHasEveryDecision | internal/lifecycle/database.go:132-145 | the guard admits exactly when the database is at the checkpoint, and then it has every decision up to it |
| Lifecycle.ReadableIff | internal/lifecycle/journal.go:138-201 | a reachable journal loads exactly when nothing is torn or too long, and without tail exactly when the checkpoint is at its end |
| Lifecycle.RecoveryCompletes | cmd/sierxctl/lifecycle.go:78-155 | from every reachable readable state whose pending decisions are admitted, unlock, reconcile and replay run to the end and leave all stores at the head |
| Lifecycle.RecoverableIff | cmd/sierxctl/lifecycle.go:78-155 | some sequence of operator commands brings the database to the head exactly when each pending decision is admitted on the tables its predecessors leave |
| Lifecycle.RefusedIsStuck | cmd/sierxctl/lifecycle.go:102-121 | with a decision that is refused, no sequence of operator commands changes journal or database |
| LifecycleRefusal.RestoreCanRefuse | cmd/sierxctl/lifecycle.go:78-155 | applying a decision and restoring any earlier backup whose tables do not admit it leads to a state from which recovery is impossible |
| LifecycleRefusal.RefusedAfterRestore | cmd/sierxctl/lifecycle.go:78-155 | a run from a new instance that ends in such a state |
| Lifecycle.UnreadableIsFrozen | internal/lifecycle/journal.go:138-201 | over an unreadable journal no command gets past opening it, and journal and checkpoint stay as they are |
| Lifecycle.UnreadableStaysFrozen | internal/lifecycle/journal.go:138-201 | over every run from such a state, with restores and ordinary work, neither journal nor checkpoint moves and no command reaches a transaction |
| LifecycleCommand.Host.Reconcile | cmd/sierxctl/lifecycle.go:78-101 | reconcile moves only the checkpoint, to the journal's end |
| LifecycleCommand.Host.ReplayAll | cmd/sierxctl/lifecycle.go:102-121 | replay succeeds exactly on a readable journal in step with its checkpoint whose pending decisions are all admitted, and then moves only the database, to the journal's end; otherwise nothing changes |
| LifecycleCommand.Host.Apply | cmd/sierxctl/lifecycle.go:122-152 | apply writes the decision down exactly on stores that agree, with an accepted plan and room in the journal; it adds it to all three stores when the tables admit it, leaves it pending when they refuse it, and otherwise changes nothing |
| LifecycleCommand.Host.Verify | cmd/sierxctl/lifecycle.go:96-101 | verify succeeds exactly when journal, checkpoint and database agree |
| LifecycleCommand.Guard.Check | internal/lifecycle/database.go:94-145 | cached or not, the guard decides by the checkpoint file that is there now |
| SxqCompile.FreshDenotes | internal/sxq/compile.go:61-64 | a placeholder keeps its value whatever is appended later |
| SxqCompile.GuardIsConfigured | internal/sxq/compile.go:78-96 | the CASE guard of a custom field is true exactly on items of the projects that configure it |
| SxqCompile.FieldMeans | internal/sxq/compile.go:65-99 | a compiled field has the field's value on every row |
| SxqCompile.ExprMeans | internal/sxq/compile.go:100-186 | for every expression that compiles, every row and every final argument list, the SQL condition has the three-valued truth of the expression |
| SxqCompile.PlanMeans | internal/sxq/compile.go:40-60 | the same for the plan between the caller's own arguments, with the sort expression |
| SxqCompile.CompilesIff | internal/sxq/compile.go:40-240 | a query compiles exactly when it is well typed and its order field can be sorted |
| SxqCompile.SortsByBytes | internal/sxq/compile.go:81-85 | the project ids of a guard are those of the definitions, in byte order |
| SxqGlossary.ComparisonMeans | internal/sxq/compile.go:156-186 | a comparison is unknown on a null and otherwise true exactly when the two values stand in the order its operator names |
| SxqGlossary.NullTestMeans | internal/sxq/compile.go:143-152 | the tests for null are true exactly on a null, or exactly on a value, and never unknown |
| SxqGlossary.ListTestMeans | internal/sxq/compile.go:159-184 | in is true exactly when one of the values is the field's and false when none is and none is null; not in is its opposite |
| SxqGlossary.LogicMeans | internal/sxq/compile.go:104-118 | and, or and not follow the tables of three-valued logic |
| SxqGlossary.ValuesMean | internal/sxq/compile.go:187-240 | the user, the time with its offset, and each literal denote the cast that its field's kind calls for |
| SxqGlossary.ItemFields | internal/sxq/compile.go:14-21 | a field that bears the name of an item's column reads that column, with the column's kind |
| SxqGlossary.RollupFields | internal/sxq/compile.go:19-19 | a field of the rollup reads the rollup's column of that name |
| SxqGlossary.OtherFields | internal/sxq/compile.go:16-20 | project, type, status, assignee, parent and text read the columns of the tables they name |
| SxqGlossary.NoOtherField | internal/sxq/compile.go:14-21 | no other name is built in |
| SxqGlossary.CustomKindsMean | internal/sxq/compile.go:87-94 | a custom field's stored text is cast to the type that literals of its kind are cast to |
| Sql.ConditionIsLocal | internal/api/items.go:22-44 | a condition depends on nothing but the aliases it mentions |
| Sql.InListMeaning | internal/sxq/compile.go:181-184 | IN is true when some element equals, false when none does and nothing is null |
| SxqCompiler.Compiler.Field | internal/sxq/compile.go:65-99 | the loops over a field's definitions take the placeholders in the order the specification numbers them |
| SxqCompiler.Compiler.Condition | internal/sxq/compile.go:100-186 | the walk that appends to one argument list gives the specified condition and arguments |
| SxqCompiler.Compile | internal/sxq/compile.go:40-60 | Compile returns the specified plan or error |
| SxqCompiler.ShapeDecidesSql | internal/sxq/compile_test.go:96-124 | expressions that differ only in their values give the same SQL |
| SxqNarrow.SatisfiedIsInKeys | internal/sxq/parser.go:255-288 | an item that satisfies the expression lies in one of the returned projects, whatever custom fields mean |
| SxqNarrow.NarrowsIff | internal/sxq/parser.go:258-288 | a query is narrowed exactly when no item of a project that it does not name could match, whatever its other comparisons and its negations say; and then to named projects, among them every one whose items could |
| SxqNarrow.FindKeys | internal/sxq/parser.go:258-288 | the recursion and its loop collect those keys |
| SxqNarrow.LoadCustom | internal/api/sxq.go:21-33 | the row loop files each wanted definition under its key, in order |
| SxqNarrow.DefsAre | internal/api/sxq.go:15-34 | a custom field gets exactly the definitions of its key in the wanted projects |
| SxqNarrow.NarrowingPreservesResults | internal/api/sxq.go:15-34 | compiled with the chosen projects' definitions or with all of them, a query selects the same items with the same sort values |
| SxqNarrow.NarrowedCompilesIff | internal/sxq/compile.go:65-99 | a query that compiles over all definitions compiles narrowed exactly when each custom field it uses keeps a definition |
| SxqLexer.Lex | internal/sxq/lexer.go:15-97 | the index-driven loops return the specified tokens or error |
| SxqLexer.LexInvertsRender | internal/sxq/lexer.go:15-97 | printed tokens lex back to themselves exactly within the byte and term limits |
| SxqLexer.LexIsLexable | internal/sxq/lexer.go:15-97 | what is lexed are words, operators and strings, and one end |
| SxqGlossary.LexerLimits | internal/sxq/lexer.go:15-97 | texts over 4096 bytes are refused, and a word is refused behind 1024 tokens |
| SxqGlossary.EscapesRead | internal/sxq/lexer.go:30-67 | in a string a backslash stands before n, r, t, a quote or itself and is refused before anything else, and the string ends at its own quote |
| SxqGlossary.BlanksSeparate | internal/sxq/lexer.go:24-27 | the four blanks separate tokens |
| SxqGlossary.WordsAre | internal/sxq/lexer.go:79-86 | which characters make and open words |
| SxqGlossary.SignsAre | internal/sxq/lexer.go:68-90 | which other characters are accepted, and that an equals sign joins the comparison before it |
| SxqParser.Parser.OrChain | internal/sxq/parser.go:81-94 | the loop parses the same chain as the specification, moves the cursor as far, and terminates on every token list |
| SxqParser.Parser.Unary | internal/sxq/parser.go:109-185 | the same for operands, with the nesting limit and its counter restored |
| SxqParser.Parser.Value | internal/sxq/parser.go:186-253 | the same for values |
| SxqParser.Parse | internal/sxq/parser.go:32-63 | Parse returns the specified query or error |
| SxqGlossary.OperatorsRead | internal/sxq/parser.go:137-155 | each sign is read as its operator |
| SxqGlossary.WordOperatorsRead | internal/sxq/parser.go:142-152 | in, not in, is and is not are read as theirs |
| SxqGlossary.ConnectivesRead | internal/sxq/parser.go:81-118 | an operand behind and, or and not is joined or negated as the word says |
| SxqGlossary.OrderRead | internal/sxq/parser.go:32-63 | an order clause descends exactly when it says desc |
| SxqGlossary.OffsetsRead | internal/sxq/parser.go:205-225 | an offset leads forward behind a plus and back behind a minus, by minutes, hours, days of 24 hours or weeks of seven days, and is refused when it does not fit 64 bits of nanoseconds |
| SxqGlossary.BareWordRead | internal/sxq/parser.go:241-252 | any other bare word is a text, in the case it is written in |
| SxqGlossary.ReservedWordsRead | internal/sxq/parser.go:195-250 | which words are refused as values and which are the two truth values |
| SxqGlossary.ReservedFieldsRead | internal/sxq/parser.go:129-132 | descendants and ancestors are refused as fields |
| SxqGlossary.LimitsRead | internal/sxq/parser.go:109-176 | an operand below 64 others is refused, a list takes 200 values and no more |
| SxqCase.CaseDoesNotMatter | internal/sxq/parser.go:32-253 | token lists that differ only in the letter case of unquoted tokens, other than durations behind a sign, are accepted or refused alike, with the same query up to the case of bare words and numbers |
| SxqCase.QueryInAnyCase | internal/sxq/parser.go:32-253 | a printed query in any such case parses to that query within the lexer's limits |
| SxqCase.MeInAnyCase | internal/sxq/aliases.go:5-13 | me and currentuser before empty parentheses, in any case, are the user |
| SxqCase.NullInAnyCase | internal/sxq/aliases.go:5-13 | null and empty, in any case, are null |
| SxqCase.DurationInAnotherCase | internal/sxq/parser.go:215-220 | a duration whose letter changes case is refused, so it keeps its meaning exactly when it is the same text |
| SxqCase.CapitalUnitIsRefused | internal/sxq/parser.go:215-220 | 7d is seven days and 7D is refused |
| SxqPrint.PrintThenParse | internal/sxq/parser.go:32-253 | a query printed with the fewest parentheses parses back to itself exactly when it keeps the lexer's limits, nests at most 64 deep and holds no empty string |
| SxqPrint.OrBack | internal/sxq/parser.go:81-108 | or and and associate to the left, and binds tighter, and the chain goes on behind what was printed |
| SxqPrint.DurationBack | internal/sxq/parser.go:207-227 | a written duration is read as what it was written for |
| SxqPrint.WeeksAreDays | internal/sxq/parser.go:222-224 | a number of weeks is read as seven times as many days |
| SxqPrint.EmptyStringHidesTheRest | internal/sxq/parser.go:39-62 | a query that starts with an empty string is accepted whatever follows it |
| SxqAccepted.AcceptedIsReadIff | internal/sxq/parser.go:32-63 | an accepted query was read to its end exactly when it holds no empty string |
| SxqAccepted.ParsedIsShaped | internal/sxq/parser.go:32-253 | every accepted query whose names are words has the shape of the round trip, nests at most 64 deep and holds no empty string |
| SxqAccepted.ParsedPrintsBack | internal/sxq/parser.go:32-253 | so it parses back from its print exactly when the print keeps the lexer's limits |
| SxqLiteral.TextStaysBound | internal/sxq/compile_test.go:96-124 | any text compared with a title arrives as the one argument of the same statement; only the empty text is refused |
| ItemJoins.EveryJoinIsSingle | internal/api/items.go:20-20 | with the schema's keys and one rollup row per item, each join gives each item exactly one partner |
| ItemTables.OneRollupRowPerItem | internal/store/mutate.go:253-260 | the tables of every sound database give each item exactly one rollup row to join |
| ItemJoins.FilterJoins | internal/api/items.go:26-44 | the loop keeps the project join and those whose alias is mentioned |
| ItemJoins.PruningKeepsRows | internal/api/items.go:22-44 | full and pruned joins give the same rows in the same order, as far as the filter can see |
| ItemJoins.FullRowShows | internal/api/items.go:20-20 | a row of the full join shows the item's own project, status, type and rollup, and its parent and assignee when they exist, or else no columns |
| Keyset.OrderBySorts | internal/api/sxq.go:137-146 | ordering with nulls last and ids as ties is strict |
| Keyset.FilterThenOrder | internal/api/sxq.go:137-146 | filtering before or after ordering makes no difference |
| Keyset.ReadRows | internal/api/sxq.go:147-189 | the row loop returns the limit's rows and a cursor exactly when one more row is there |
| Keyset.PageIsSlice | internal/api/sxq.go:98-189 | a page is the next slice of the result, and its cursor is missing exactly when nothing remains |
| Keyset.WalkIsExact | internal/api/sxq.go:98-189 | for any limits the pages are a prefix of the result without gap or repetition, and all of it exactly when the limits reach the end and every cursor fits its token |
| Keyset.LongCursorStops | internal/api/cursor.go:24-58 | a first cursor that does not fit leaves the rows behind it out of reach |
| CursorTokens.FitsIff | internal/api/cursor.go:24-46 | a token fits exactly when the cursor's JSON has at most 6112 bytes |
| CursorTokens.BytesAreText | internal/api/cursor.go:24-46 | the bytes that are counted are those of the cursor's JSON text with its escapes |
| CursorTokens.LongTextDoesNotFit | internal/api/cursor.go:24-46 | a sort text of 6053 characters or more never fits, whatever else the cursor holds |
| ItemPages.PredicateMeans | internal/api/sxq.go:104-136 | the keyset predicate is true, in three-valued logic, exactly of the rows after the cursor, ascending or descending, nulls last |
| ItemPages.ListItems | internal/api/sxq.go:98-189 | selecting with the argument list and the predicate that the handler builds, over the joins it picks, and reading the rows in its loop gives the specified page |
| ItemPages.PruningPreservesSelection | internal/api/sxq.go:137-146 | selecting over the pruned joins gives the entries of the full join |
| ItemPages.RequestIsPage | internal/api/sxq.go:98-189 | a request gets the page of the reference answer that its cursor calls for |
| ItemPages.ListingIsExact | internal/api/sxq.go:54-189 | the pages of a listing are exactly the items that satisfy the query, in order, over any limits, as long as every cursor on the way fits its token |
| ListingOrder.AnswerIsInOrder | internal/api/sxq.go:98-189 | of two items of the answer the earlier one has the lower sort value, or the higher one when the query says desc; nulls come last, and ties go by id |
| ListingOrder.PageIsInOrder | internal/api/sxq.go:98-189 | the same in every page, which has at most the limit's rows, all behind the cursor it was asked for with |
| ListingOrder.BrowsedIsInOrder | internal/api/sxq.go:98-189 | the same in the pages joined together |
| ListingOrder.AnswerIsAskedFor | internal/api/sxq.go:98-189 | the answer holds exactly the live rows up to the upper bound, of the workspace and the wanted project, that satisfy the query |
| ListingOrder.AnswerIsDistinct | internal/api/sxq.go:98-189 | no item stands in the answer twice |
| ItemPages.LongSortStops | internal/api/sxq.go:147-189 | a listing by a text whose first item has 6053 characters or more never gets past a first page of one item |
| ItemPages.HydrationIsExact | internal/api/sxq.go:144-146 | hydrating an entry over all joins finds the one row of its item |
| ItemPages.NewestUpperShowsAll | internal/api/sxq.go:76-81 | the upper bound of the first page leaves no item of the snapshot out |
| ListingExample.SettingIsPossible | internal/api/sxq.go:98-189 | the assumptions of the listing theorem hold together on a listing of two items |
| ListingExample.LongBodyStopsTheListing | internal/api/sxq.go:98-189 | ordering two items with long bodies by body, one to a page, ends in a refused cursor |
| IdPages.ReadPage | internal/api/pages.go:45-77 | the row loop returns the page and advances the cursor |
| IdPages.WalkIsExact | internal/api/pages.go:25-80 | while rows come and go, pages stay strictly ascending and within bounds, and show every row that was there throughout |
| IdPages.FinishedWalk | internal/api/pages.go:25-80 | a finished walk returns such a row exactly once, no id twice and none above everything the first request saw |
| EditDistance.TwoRows | internal/sxq/compile.go:254-272 | the two-row program computes the recursive edit distance |
| EditDistance.OneRow | internal/api/projection/registry.go:204-224 | the program that overwrites one row computes it too |
| EditDistance.NoFewerChanges | internal/sxq/compile.go:254-272 | no list of edits between two texts has fewer changes than the distance |
| EditDistance.DistanceIsReached | internal/sxq/compile.go:254-272 | some list of edits has exactly that many |
| EditDistance.Nearest | internal/sxq/compile.go:241-253 | the suggestion is the first name at the least distance |

## Left out

- HTTP routing, problem documents, authentication, sessions, exports, seeding, deployment scripts and the web interface.
- Row-level security, operator content restrictions and archived projects; one workspace is modelled, and every item and rank is visible to the store.
- Item keys, titles, bodies, assignees, custom field values, types and configuration versions inside the unit of work: no step reads them. Points and dates are integers. Category stands for the status.
- ItemUpdate.Rank: no caller sets it.
- RebalanceProject: it lists ranks before it takes the counter lock; the respread inside a flush is modelled.
- Widths of Go's and PostgreSQL's integers, apart from the duration bound of the parser.
- The depth limit on inserts is the row trigger's (`migrations/0008_invariants.sql`), and the meaning of `sierx_set_project_ranks` and `sierx_lifecycle_apply` is taken from `migrations/0014_lifecycle_controls.sql`.
- Journal.NextDecisionApplies: which tables a decision checks and changes (holds, origins, memberships, retention) is the parameter `Rules`; only that the outcome depends on the database's tables and the action is used.
- RankKeys.RankBetween: bounds on which the code would not return are excluded by its requires clause, because a method must terminate; DescentNeverEndsIff says which they are, and EveryHistoryAscends that no history reaches them.
- UnitOfWork.MutatedIsSound: assumes that no id is inserted again after a hard delete in the same mutation; MutatedIsSoundIff has the exact condition without that assumption, and Rebirth.CacheRightWithoutAdoption a test on the list alone.
- RankList.MovePlaces: assumes fewer than 36^39 items, where the database would refuse ranks of more than 40 digits; MoveAscends has no such bound.
- Journal.AppendThenLoad: file modes, fsync and the atomic rename are not modelled beyond a torn last line and a crash between the append and the rename.
- LifecycleCommand.Guard.Check: the identity of a checkpoint file (device, inode, times) is a number that every rename makes new.
- SxqLexer.Lex: text is a sequence of Unicode characters, so that invalid UTF-8, which the code refuses first, cannot be written down; byte positions in messages are left out.
- SxqPrint.PrintThenParse: field names are words in lower case other than not, descendants, ancestors and order; the parser would also take an operator, or order inside parentheses, for a field name, which never compiles. ParseFloat is a parameter.
- SxqCase.CaseDoesNotMatter: assumes of ParseFloat only that it does not look at case, and leaves out the durations behind a sign, where the code does look; DurationInAnotherCase says what happens there.
- SxqCompile.ExprMeans: errors that the database raises while it evaluates a cast are not modelled; casts are total functions.
- ItemPages.ListItems: the SQL text itself is a syntax tree; decoding of rows and of the cursor's JSON is exact by assumption (Carries), and the projection's own expression is not modelled.
- Keyset.WalkIsExact: whether a cursor fits its token is a parameter there; ItemPages.ListingIsExact uses the length of the real token.
- Completion suggestions, fields of the projection registry, and expectedVersion: straight-line code with little to say.
