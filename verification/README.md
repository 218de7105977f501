# Verification of the recognizer, the connections, the registry and the bench

A model, in Dafny, of the four parts of this repository whose behaviour spans many steps, with proofs of what
they keep.

* **The French entity recognizer.** A text is cut into overlapping chunks on word boundaries, a chunk that
  exceeds the window of the model is halved, and what is found in each piece is moved to its place and merged.
  `Chunking` is the chunker and its bound; `Merging` and `MergeRule` say what a merge is, without an
  algorithm, and `MergedFindings` what it is made of; `Sweep` is the one-pass merge of the recognizer,
  `Pairwise` and `PairwiseMerge` the slow rule of its check, both proved to give that merge, and `TiedScores`
  what equal scores change; `Pieces`, `Predictions` and `Recognizer` are the recursion through chunks and
  halves, and `Grouping` and `GroupedTokens` fold tokens into entities.
* **The connection manager.** `Connections` gives each operation as a function of the two maps, the clients
  the provider returned and the clients passed to close, and `ConnectionOutcomes` tells each one apart;
  `ConnectionManager` holds the maps in a class whose methods are proved against those functions. A body that
  runs under the mutex is one step.
* **The control plane.** `Reports`, `Intake`, `PendingReports`, `StoredReports`, `ListedReports`,
  `OtherLicenses`, `Promotion`, `ReportHistory`, `ReportOrder`, `OwnReports`, `IssueOrder` and
  `IntakeOutcomes` are the usage reports, received, kept pending and promoted; `Licensing`, `Registry`,
  `RegistryOutcomes`, `Links`, `Successors` and `Journal` are the customers, the licenses, their chains and
  the journal; `Confirmations` interleaves the steps of any number of requests that confirm licenses with one
  another and with all else, `ConfirmationSteps` tells what each step answers, and `Repeats` follows those of
  one id; `DraftForm`, `DraftRules` and `DraftParsing` carry a draft through a form. `ReportStore` and
  `RegistryStore` write the tables in place. A transaction is one step.
* **The verifier of the bench.** `TableComparison` counts the rows of a table that are off and `ColumnRules`
  the values that break the rule of a column, both into the result `TableResults` holds; `ConsistentColumns`
  counts the values that break a rule across tables.

`Sets`, `Sums`, `Sorting`, `Texts`, `Numbers` and `Wrappers` are what these share.

Everything is verified with `dafny verify dfyconfig.toml`.

## What the proofs say of the code

* The comment on the walk of the successors says that nothing keeps a chain from closing on itself
  (`controlplane/sql/queries/renewal.sql:1-7`). Nothing in the table does, but the two operations that record
  a license never make one: `Links.RegistryIsLinked` and `Successors.ChainsAreLines`. The bound of the walk
  only ever cuts a chain of more than 64 links.
* Promoting reports is not always what receiving them would have been. A pending report is known by its
  instance, day and seal, and not by its document: one that verifies is lost when another document was posted
  first under the same three. `Promotion.PromotedAsReceived` says exactly when, and
  `Promotion.AMaskedReportIsNotPromoted` gives the run. When equal seals carry equal documents it cannot
  happen.
* With equal scores, the pairwise rule may keep the explanation of another finding than the sweep does:
  `TiedScores.ATieMayKeepAnother` gives the run. Nothing else may differ (`MergeRule.LooseMergesAgree`). When
  no unit has two best findings that differ by their explanation, every run agrees with the sweep. Otherwise
  another merge exists (`TiedScores.OneMergeExactlyWhen`); that a run of the pairwise rule reaches it is not
  proved.
* What is known of an instance and the conflicts counted for a day may differ too: reports are promoted by
  day, whatever the order they came in, and one sent twice is pending once. `IssueOrder.SameInstanceRow` and
  `IssueOrder.SameDayRow` say exactly when they are the same, and `IssueOrder.TheOrderIsSeen` gives a run
  where they are not.
* The merge needs findings that start no later than they end, not findings that are not empty.
* The check of a signed key takes an empty list of connection types for none, and the check of a confirmation
  sent again does not (`Licensing.PassesIfAsked`, `Licensing.ContentTellsDrafts`). No encoder writes such a
  list, so the two never meet.

## Model

| member | source | states |
|---|---|---|
| Chunking.SplitIntoChunks | docker/presidio-fr/onnx_ner_recognizer.py:71-104 | The loop gives the chunks of the specification, and neither of its two errors can be raised: the count never passes its bound and each chunk starts after the one before. |
| Chunking.ChunksAreBounded | docker/presidio-fr/onnx_ner_recognizer.py:106-114 | A text of any length is never cut into more chunks than `most_chunks` says. |
| Chunking.NoChunkPastTheBound | docker/presidio-fr/onnx_ner_recognizer.py:106-114 | The count follows from succession alone: ends that advance by more than a step every two chunks leave room for no more. |
| Chunking.TwoChunksAdvanceByAStep | docker/presidio-fr/onnx_ner_recognizer.py:106-114 | Any two chunks in a row before the last move the end forward by more than `chunk_size - chunk_overlap - start_reach`. |
| Chunking.ThirdIsOutOfReach | docker/presidio-fr/onnx_ner_recognizer.py:81-104 | A chunk that ended within the reach of the one before it would have been its end: it stands past the full size of that one. |
| Chunking.EndsOnTheLastBoundary | docker/presidio-fr/onnx_ner_recognizer.py:84-91 | A chunk before the last ends on a boundary and none stands after it within its size; or has the full size and none stands where it could end. |
| Chunking.TheRestFits | docker/presidio-fr/onnx_ner_recognizer.py:83-94 | A chunk is the last exactly when what is left of the text fits in it. |
| Chunking.StartReachIsTheMost | docker/presidio-fr/onnx_ner_recognizer.py:61-69 | The reach of a start is the greatest that is not past the overlap and leaves every chunk an end past the start of the next. |
| Chunking.BeginsTheNearestWord | docker/presidio-fr/onnx_ner_recognizer.py:95-101 | The next chunk begins just after the nearest boundary before its fixed start; or there, and no boundary stands within reach. |
| Chunking.NoBoundaryAfterTheLast | docker/presidio-fr/onnx_ner_recognizer.py:116-117 | The last boundary is the last of any of the characters within the bounds, both taken as natural numbers: the low one is never negative. |
| Chunking.ChunksAreInSuccession | docker/presidio-fr/onnx_ner_recognizer.py:71-104 | From any start the chunks are well cut, follow one another and end at the end of the text. |
| Chunking.ChunksCoverTheText | docker/presidio-fr/recognizer_check.py:36-48 | Starts and ends strictly increase, each chunk has 1 to `chunk_size` characters and is the text between them, neighbours share at least the overlap, and the chunks go from the start of the text to its end. |
| Chunking.SpanIsWholeInAChunk | docker/presidio-fr/onnx_ner_recognizer.py:71-79 | Every span of at most `chunk_overlap` characters, and every character, is whole in one chunk. |
| Merging.JoinedIsByChains | docker/presidio-fr/recognizer_check.py:406-414 | Two findings become one exactly when a chain of overlapping findings of their type links them: the definition by cuts and the one by chains agree. |
| MergeRule.MergeIsUnique | docker/presidio-fr/onnx_ner_recognizer.py:133-190 | Type, start, end, score, explanation and order of the merge of a list of findings are determined. |
| MergeRule.LooseMergesAgree | docker/presidio-fr/recognizer_check.py:406-444 | Whatever unites the same findings says the same, but for the explanation kept of equal scores. |
| MergeRule.LooseMergesAgreeOnExplanations | docker/presidio-fr/recognizer_check.py:406-444 | And the same explanation too, when the best of each unit have one. |
| MergeRule.MergeKeepsCharacters | docker/presidio-fr/recognizer_check.py:476-493 | The merge designates a character under a type exactly when a finding given does: none dropped, none added. |
| MergeRule.WhatStillOverlaps | docker/presidio-fr/onnx_ner_recognizer.py:137-147 | Two findings that overlap after the merge are findings of one chunk, as that chunk gave them. |
| MergedFindings.MergedAreInOrder | docker/presidio-fr/onnx_ner_recognizer.py:149-150 | The findings are given by start and, of equal starts, by the first given of those they unite. |
| MergedFindings.EachIsInOne | docker/presidio-fr/onnx_ner_recognizer.py:141-146 | Every finding is within one of those given, of its type and with a score as high at least, and so is every finding a chain over several chunks links it to. |
| MergedFindings.EachIsOfTheirs | docker/presidio-fr/onnx_ner_recognizer.py:176-190 | What is given starts and ends where some of those it unites do, with the score and the explanation of the first given of the highest score. |
| MergedFindings.OneChunkIsLeftAsItIs | docker/presidio-fr/onnx_ner_recognizer.py:145-147 | A finding linked to findings of its own chunk only is given as it is. |
| Sweep.GroupIsComponent | docker/presidio-fr/onnx_ner_recognizer.py:160-168 | What the pass gathers between two closings is exactly a set of findings linked by overlaps, with all it is linked to. |
| Sweep.SweepType | docker/presidio-fr/onnx_ner_recognizer.py:149-190 | One pass over the sorted findings of a type emits each linked set once: united when it is of several chunks, untouched otherwise. |
| Sweep.MergeAcrossChunks | docker/presidio-fr/onnx_ner_recognizer.py:133-173 | The sweep returns the merge of the findings, whatever order the types are taken in, for findings that start no later than they end. |
| Pairwise.RunHolds | docker/presidio-fr/recognizer_check.py:416-436 | Whatever pairs are united and in whatever order, each group is a union of linked findings and each step leaves one group less, so every run ends. |
| PairwiseMerge.AnyRunEndsOnTheMerge | docker/presidio-fr/recognizer_check.py:406-444 | Every run of the pairwise rule that has no pair left gives what the sweep gives: the same types, starts, ends and scores in the same order. |
| PairwiseMerge.AnyRunEndsOnTheMergeItself | docker/presidio-fr/recognizer_check.py:406-444 | With distinct scores it gives the same explanations too. |
| TiedScores.OneMergeExactlyWhen | docker/presidio-fr/recognizer_check.py:406-444 | Everything that unites the same findings keeps the same explanations exactly when no unit has two of its highest score with different ones. |
| TiedScores.ATieMayKeepAnother | docker/presidio-fr/recognizer_check.py:406-444 | A concrete run of the pairwise rule, three findings of which two are of one score, that ends on another explanation than the merge of the recognizer. |
| PairwiseMerge.ReferenceMerge | docker/presidio-fr/recognizer_check.py:406-444 | The loop that unites the first pair it finds ends, on a merge of the findings. |
| PairwiseMerge.FirstPair | docker/presidio-fr/recognizer_check.py:416-424 | The search gives a pair to unite, or there is none. |
| Sorting.SortSorts | docker/presidio-fr/onnx_ner_recognizer.py:157-158 | Sorting by distinct keys gives one order, strictly increasing. |
| Pieces.LeavesAreOk | docker/presidio-fr/onnx_ner_recognizer.py:336-393 | For any tokenizer, the halving ends, every text handed to the model fits its window, and one that does not and is not cut is at most one character. |
| Pieces.LeavesCover | docker/presidio-fr/onnx_ner_recognizer.py:381-393 | Every character of a text lies in one of the texts handed to the model, through all the levels of halving. |
| Pieces.WholeWhenItFits | docker/presidio-fr/onnx_ner_recognizer.py:336-340 | A text whose tokens are within the window is never cut. |
| Pieces.HalvesHoldSpans | docker/presidio-fr/onnx_ner_recognizer.py:381-393 | No half has more than half the characters, and a span as short as the overlap of the chunks and as a quarter of the text is whole in one of them. |
| Pieces.PredictWhole | docker/presidio-fr/onnx_ner_recognizer.py:341-378 | A text that is read whole gives exactly those grouped entities whose tag is mapped and whose score is the threshold at least, each once and in order, under the type mapped to and at their own bounds and score; or the failure of the model. |
| Predictions.OnePrediction | docker/presidio-fr/onnx_ner_recognizer.py:119-131 | What is given for a text, level by level the merge of what is given for its chunks at their places, is determined: types, bounds, scores, explanations and order. |
| Predictions.TaggedAreMoved | docker/presidio-fr/onnx_ner_recognizer.py:125-130 | A finding of a chunk is merged under the index of its chunk, its bounds moved by where the chunk starts and the rest as it was. |
| Recognizer.PredictWithChunking | docker/presidio-fr/onnx_ner_recognizer.py:119-131 | The answer for a chunked text is the prediction of the specification. It succeeds exactly when the model reads all its pieces, and then designates, per type, exactly the characters the model designates in them, at their place; a failure is that of one of them. |
| Recognizer.PredictChunk | docker/presidio-fr/onnx_ner_recognizer.py:336-378 | The same of a text that is read whole or halved; only a text of one character at most is said to exceed the window, and only one within it that the model does not read to fail. |
| Recognizer.PredictInHalves | docker/presidio-fr/onnx_ner_recognizer.py:381-393 | The same of a text cut in halves, at every level of nesting. |
| Recognizer.GatheredGrows | docker/presidio-fr/onnx_ner_recognizer.py:125-130 | Moving the findings of one more chunk to their place gathers exactly what the model found in its pieces. |
| Recognizer.Analyze | docker/presidio-fr/onnx_ner_recognizer.py:327-334 | Nothing is asked of the model for an empty text or unmapped entities; otherwise what is returned is what is given for the text, of the types asked for and in order, and designates exactly their characters that the model designates. |
| Grouping.Grouped | docker/presidio-fr/onnx_ner_recognizer.py:205-239 | The loop over the tokens gives the labelled runs of the tokens that are not special, with first start, last end and mean score. |
| Grouping.HeadsAreTheHeads | docker/presidio-fr/onnx_ner_recognizer.py:219-233 | A run starts exactly at the first token, at a change of tag and at a `B-`: the runs are maximal. |
| Grouping.RunHasNoHead | docker/presidio-fr/onnx_ner_recognizer.py:219-233 | No token of a run after its first is one a run starts at. |
| Grouping.OneTag | docker/presidio-fr/onnx_ner_recognizer.py:219-233 | All the tokens of a run have its tag. |
| Grouping.EachTokenIsInOneRun | docker/presidio-fr/onnx_ner_recognizer.py:205-239 | Every token that is not special is in exactly one run, and that run has its tag. |
| Grouping.EntitiesAreTheLabelledGroups | docker/presidio-fr/onnx_ner_recognizer.py:234-239 | The entities are exactly the runs that are not `O`, each once and in their order. |
| GroupedTokens.NeighboursShareARun | docker/presidio-fr/onnx_ner_recognizer.py:219-233 | Two tokens in a row are of one run exactly when they have one tag and the second is no `B-`. |
| GroupedTokens.RunSpansItsWords | docker/presidio-fr/onnx_ner_recognizer.py:226-231 | A run goes from the start of its first token to the end of its last, with the score of each. |
| GroupedTokens.WordsAreNotSpecial | docker/presidio-fr/onnx_ner_recognizer.py:221-223 | The tokens grouped are exactly those that are not special, each once and in order. |
| GroupedTokens.NamesAreRead | docker/presidio-fr/onnx_ner_recognizer.py:224-225 | The tag of a label is what follows `B-` or `I-`, or the label itself. |
| GroupedTokens.MeanBalances | docker/presidio-fr/onnx_ner_recognizer.py:234-239 | The score of an entity is the one value its scores are away from by nothing in all. |
| Connections.GetKeeps | internal/connection-manager/manager.go:99-153 | After a get, answered or failed, what sessions hold is mapped to open clients and no empty session or group is in the maps. |
| Connections.ReleaseKeeps | internal/connection-manager/manager.go:155-225 | The same after a release, of a session that is there or not, with or without closing on release. |
| Connections.ReapKeeps | internal/connection-manager/manager.go:258-321 | The same after a cycle of the reaper, and then the groups hold exactly what the sessions hold. |
| Connections.HardCloseClosesAll | internal/connection-manager/manager.go:323-347 | After a hard close the maps are empty and every client the provider ever returned was passed to close exactly once. |
| Connections.RunKeeps | internal/connection-manager/manager.go:99-347 | In every run of get, release, reap and hard close, the invariant holds. |
| Connections.HeldOnceOrClosedOnce | internal/connection-manager/manager.go:121-143 | In every run, a client the provider returned is held under one group and connection and was never closed, or is held nowhere and was closed exactly once. |
| Connections.CloseOnReleaseLeavesNoneUnused | internal/connection-manager/manager.go:155-225 | With closing on release, after every operation a group holds exactly what its sessions hold. |
| Connections.ReaperLeavesNoneUnused | internal/connection-manager/manager.go:258-321 | Without it, the same holds after every cycle of the reaper. |
| ConnectionOutcomes.GetAnswers | internal/connection-manager/manager.go:99-143 | A get answers the client mapped to the group and connection, provided before and none anew, or one never provided before that is then mapped; none exactly when none is mapped and the provider fails, and then nothing changes. The session holds it, and no other group, session or connection changes. |
| ConnectionOutcomes.ReleaseAnswers | internal/connection-manager/manager.go:155-225 | A release answers whether the session held something; it then holds nothing and all others what they held. What only it held is closed with closing on release, and nothing is without. |
| ConnectionOutcomes.ReapAnswers | internal/connection-manager/manager.go:258-321 | A cycle of the reaper closes, once, exactly what no session holds, and changes no session. |
| ConnectionOutcomes.HardCloseAnswers | internal/connection-manager/manager.go:323-347 | A hard close closes, once, exactly what is mapped, and leaves nothing held. |
| ConnectionManager.Manager.GetConnection | internal/connection-manager/manager.go:99-143 | The maps after a get, and the client: the one mapped to the group and connection, or a new one that is then mapped; none exactly when the provider fails. |
| ConnectionManager.Manager.EnsureSessionMapsExist | internal/connection-manager/manager.go:145-153 | The maps of the group and of the session are there, and all else is unchanged. |
| ConnectionManager.Manager.ReleaseSession | internal/connection-manager/manager.go:155-191 | The maps after a release, and whether the session was there. |
| ConnectionManager.Manager.CloseSpecificGroupConnections | internal/connection-manager/manager.go:193-225 | The candidates that do not remain are closed once and deleted, and the group with its last one. |
| ConnectionManager.Manager.CleanUnusedConnections | internal/connection-manager/manager.go:258-321 | The maps after a cycle of the reaper: deleting while going through them leaves none out. |
| ConnectionManager.Manager.HardClose | internal/connection-manager/manager.go:323-347 | The maps after a hard close: every connection of every group was closed. |
| ConnectionManager.Manager.UniqueConnectionIds | internal/connection-manager/manager.go:349-359 | The connections of the sessions of a group, each once. |
| TableComparison.RowsAreAccountedFor | bench/verify/verify.go:280-327 | DestinationRows + Missing = ExpectedRows + Leaked + Unexpected + Duplicated, for all inputs. |
| TableComparison.NoGapIsAsExpected | bench/verify/verify.go:280-327 | The four gap counters are all zero exactly when the destination holds each kept key its expected number of times and no other row. |
| TableComparison.GapsAreNotNegative | bench/verify/verify.go:44-50 | No counter is below zero, so a sum of them hides none. |
| TableComparison.CountersCountTheirRows | bench/verify/verify.go:282-327 | Each counter is the number of the rows it names: dropped and there, kept and beyond what is expected, kept and absent, of no expected key, and all of each side. |
| TableComparison.EachCounterTellsItsKind | bench/verify/verify.go:299-322 | Each counter is zero exactly when there is nothing of its own kind: none is told for another. |
| ColumnRules.NoneIsBadAtAll | bench/verify/verify.go:340-371 | Counting the values that break a rule, key by key, gives zero exactly when no value of the column breaks it. |
| ColumnRules.BadIsASize | bench/verify/verify.go:340-371 | What is counted of a key is the number of its rows whose value breaks the rule. |
| ColumnRules.UnchangedTells | bench/verify/verify.go:340-360 | An unchanged column holds, in every matched row, NULL where it is expected to and otherwise the value of the source. |
| ColumnRules.NullAndCopiedTell | bench/verify/verify.go:361-392 | A NULL column holds no other value, and one not in the source set shares no value but NULL with the source. |
| ColumnRules.NoneRepeats | bench/verify/verify.go:372-381 | The second look at a value counts one for each value seen before: none exactly when no value but NULL stands twice in the column. |
| ColumnRules.NoneIsViolating | bench/verify/verify.go:329-404 | No value of a column breaks a rule exactly when the rule holds: unchanged from its source, NULL, never twice, or never of the source. |
| ColumnRules.AfterTheColumns | bench/verify/verify.go:329-404 | After all the columns, a column and rule are among what is counted exactly when the column is to hold the rule and does not. |
| ColumnRules.CheckRule | bench/verify/verify.go:329-404 | The violations of one rule of one column, and no other, grow by the number of values that break it. |
| ColumnRules.CheckRules | bench/verify/verify.go:329-404 | All the rules of all the columns are counted in their order, each as often as it stands there; a rule that is not known stops the check. |
| TableComparison.NoGapAtAll | bench/verify/verify.go:280-404 | No row is off and no rule is broken exactly when the destination is as expected and every rule of every column holds. |
| TableComparison.CompareTable | bench/verify/verify.go:282-327 | The result of the nested loops, in any order of the keys: each counter the number of the rows it names and zero exactly without one of its kind, the rules that are broken, no gap exactly when nothing is off, and a gap is shown exactly when there is one; an error exactly for a rule that is not known. |
| TableResults.TableResult.Gaps | bench/verify/verify.go:43-50 | The gaps in all are the four counters and the violations of every rule, and none exactly when each is zero: nothing cancels out. |
| ConsistentColumns.CheckConsistent | bench/verify/verify.go:143-185 | No violation is counted exactly when, for each column name that holds the rule, one function from source values that are not NULL to destination values explains all the matched rows of all the tables; and as many are counted under a table and a column as there are matched rows there that differ from the first output of their source value. |
| ConsistentColumns.SeenIsRemembered | bench/verify/verify.go:160-183 | After one more matched row, the maps hold the first output of each value, and the counts are of the rows that differ from it. |
| ConsistentColumns.NothingCountedIsOneFunction | bench/verify/verify.go:143-185 | From what is remembered, nothing is counted exactly when one function explains all that was seen. |
| Promotion.PromotedAsReceived | controlplane/intake/intake.go:154-209 | For each instance and day, issuing the license after its reports came and promoting them leaves the same document, seal and reception instant as issuing it first, exactly when the first report that verifies is not masked by one received before it under the same instance, day and seal. |
| Promotion.SameForEveryReport | controlplane/intake/intake.go:83-209 | When equal seals carry equal documents, it leaves the same for every license, instance and day. |
| OtherLicenses.SameForOtherLicenses | controlplane/intake/intake.go:83-209 | The reports of other licenses are the same either way, whatever the seals. |
| Promotion.AMaskedReportIsNotPromoted | controlplane/intake/intake.go:128-152 | A concrete run in which a stranger posts another document first under the seal of a report: the two orders differ. |
| PendingReports.PendingAfterAll | controlplane/cpstore/reports.go:169-221 | What is pending is the first report received of each instance, day and seal. |
| StoredReports.StoredAfterAll | controlplane/cpstore/reports.go:69-150 | What is stored of each instance and day is the first report that verifies, as it was received. |
| Promotion.PromoteAllRemoves | controlplane/intake/intake.go:154-183 | Each report listed is stored or discarded and counted so, is pending no longer, and no other is touched. |
| Promotion.OneMorePromoted | controlplane/intake/intake.go:154-183 | Each report listed is promoted in turn, and counted as stored exactly when it is kept. |
| IntakeOutcomes.PendingTells | controlplane/intake/intake.go:128-152 | A report whose license is not issued is pending exactly when it is already or both caps leave room, with its own document and instant, and full otherwise. |
| IntakeOutcomes.RefusedTells | controlplane/intake/intake.go:83-113 | A report is refused exactly when it is not readable or its issued license does not verify it; a rejection is counted, on its day, exactly for a seal that is not of its document. |
| IntakeOutcomes.SoundTells | controlplane/intake/intake.go:105-124 | A sound report is turned away exactly when its license is seen on too many other instances, and otherwise stored exactly when its day has no row, a repeat exactly when the row has its document and stays, a conflict exactly when it has another and one more is counted. |
| IntakeOutcomes.PromotionTells | controlplane/intake/intake.go:186-209 | A pending report is kept exactly when its document verifies and there is room; it is pending no longer either way. |
| Intake.PendingStaysWithinCaps | controlplane/intake/intake.go:128-152 | Whatever reports are received one after the other, from nothing pending, neither cap on what is pending is ever passed. |
| Intake.PromotionStaysWithinCaps | controlplane/intake/intake.go:154-183 | Nor is either passed through a promotion of any list. |
| IssueOrder.SameDayRow | controlplane/intake/intake.go:154-209 | The whole row of a day, with its conflicts counted and the last of them, is the same whether the license is issued first or last, exactly when neither its first report that verifies nor one that verifies and differs from it is masked. |
| IssueOrder.SameInstanceRow | controlplane/sql/queries/reports.sql:10-29 | What is known of an instance is the same either way exactly when no day came for the first time after the greatest day, and the kind of installation its days tell is one its news told. |
| IssueOrder.TheOrderIsSeen | controlplane/sql/queries/reports.sql:10-43 | A concrete run of four reports: with a day received after the next one, the instance row differs; with a differing report received twice, so do the conflicts counted. |
| ReportOrder.SameInstance | controlplane/sql/queries/reports.sql:10-29 | Of any reports, sorted by day or as they were received, the first of each day among them: the row they leave is the same under exactly that condition. |
| OwnReports.RowsAfterReceiveAll | controlplane/cpstore/reports.go:94-150 | Received under an issued license, the reports that verify leave the rows that folding them alone leaves. |
| ReportHistory.RowsAreOfTheirOwn | controlplane/cpstore/reports.go:94-150 | Through any sequence of reports, the row of an instance and the row of a day are what their own stored reports make of them. |
| ReportHistory.FirstStaysAndConflictsCount | controlplane/sql/queries/reports.sql:31-43 | The first report of a day stays as received; a conflict is counted for each report of another document and for no repeat, and the last instant of them is told. |
| ReportHistory.InstanceTellsItsNews | controlplane/sql/queries/reports.sql:10-29 | An instance is first seen at the earliest reception; its latest state is of the reports later than all before them only, and a kind of installation already known is not erased. |
| ReportStore.Store.StoreReport | controlplane/cpstore/reports.go:81-150 | The tables and the outcome of storing a report, statement by statement. |
| ReportStore.Store.KeepPending | controlplane/cpstore/reports.go:177-221 | The tables after keeping a report pending: one already there is left as it is, whatever the caps. |
| ReportStore.Store.PendingReports | controlplane/cpstore/reports.go:223-243 | The reports pending under a fingerprint, each once, the oldest day first and for one instance and day the first received first. |
| ReportStore.Store.PromotePendingReport | controlplane/cpstore/reports.go:245-264 | A pending report is stored and removed in one transaction, whatever the outcome. |
| ReportStore.Store.DiscardPendingReportForItsSeal | controlplane/cpstore/reports.go:274-291 | A rejection is counted only for a report that was still pending. |
| ReportStore.Receiver.Receive | controlplane/intake/intake.go:83-126 | The tables and the answer for a report received. |
| ReportStore.Receiver.Promote | controlplane/intake/intake.go:186-209 | The tables after one pending report is promoted, and whether it is stored. |
| ReportStore.Receiver.PromotePending | controlplane/intake/intake.go:154-183 | The tables and the two counts after going through the reports pending under a fingerprint, in the order they are listed; nothing without a license. |
| Licensing.ContentTellsDrafts | controlplane/issuing/issued.go:18-43 | The license a draft was recorded as is the content of another draft exactly when both ask for the same license of the same customer; the name, the external id and the note are not told apart. |
| Licensing.PassesIfAsked | controlplane/issuing/signer.go:193-239 | A signed key passes exactly when it is the key of the draft, but for an empty list of connection types in place of none. |
| Licensing.DisagreementIsTheFirst | controlplane/issuing/signer.go:193-239 | What the check of a signed key tells is the first field that does not say what was asked for. |
| Registry.OneLineForAWrite | controlplane/cpstore/operator.go:280-321 | An act that is done leaves one line, of its operator, instant and subject, at the end of the journal; a refused or unchanged one leaves neither a row nor a line. |
| RegistryOutcomes.CreateTells | controlplane/cpstore/operator.go:83-115 | A customer is created exactly when it has both names and its external id is free, as it was asked for, trimmed; no other changes. |
| RegistryOutcomes.UpdateTells | controlplane/cpstore/operator.go:117-156 | A customer is left unchanged exactly when the trimmed name and the note are both those stored, and renamed otherwise, if it is there and has a name. |
| RegistryOutcomes.ImportTells | controlplane/cpstore/licenses.go:33-64 | A license of the registry file is left alone exactly when its id is there, and breaks exactly when its value is kept under another. |
| RegistryOutcomes.RecordTells | controlplane/cpstore/operator.go:170-227 | Each outcome of recording an issued license, exactly when: what it succeeds is not there, of another customer, or has a successor; its id is there; its value is kept; or none of these. |
| RegistryOutcomes.RecordLeaves | controlplane/cpstore/operator.go:170-227 | The row of an issued license says what was asked for, of the customer the key names, and nothing changes without it. |
| RegistryOutcomes.ShowTells | controlplane/cpstore/operator.go:229-250 | A key is shown exactly when its license is recorded, and it is the value recorded. |
| RegistryOutcomes.JournalAfterAnAct | controlplane/cpstore/operator.go:280-321 | The line of each act tells who did what to whom and when, with its values; nothing else leaves one. |
| Links.RegistryIsLinked | controlplane/cpstore/operator.go:158-227 | In every reachable state: one customer per external id, every key is of the customer it names, a license succeeds one of its customer recorded before it, and has one successor at most. |
| Links.RunStays | controlplane/sql/queries/operator.sql:35-39 | Whatever follows, the row of a license, the external id of a customer and the lines of the journal are never changed nor deleted. |
| Links.NeverIssuedAgain | controlplane/cpstore/operator.go:158-227 | A license issued, whatever follows, nothing is issued again under its id, of its value, or to succeed the license it succeeds. |
| Links.CustomerIsAsLastSaid | controlplane/cpstore/operator.go:83-156 | Through any run, a customer bears the name and the note of the last act on it that was done, trimmed, and the external id it was created with. |
| Links.NeverBroken | controlplane/sql/queries/licenses.sql:8-23 | As long as a key is what its value reads as, no write fails on a value recorded twice: what is recorded again is left alone on its id. |
| Successors.ChainsAreLines | controlplane/cpstore/licenses.go:77-120 | In every reachable state the successors form disjoint chains: no cycle, one customer per chain, and two licenses that share one before or after them are on one chain. |
| Successors.EveryChainEnds | controlplane/sql/queries/renewal.sql:1-24 | The chain of every recorded license has an end; it is the license itself exactly when nothing succeeds it. |
| Successors.LatestIsTheEnd | controlplane/cpstore/renewal.go:34-54 | The latest successor is the end of the chain when it is at most 64 links away, and otherwise the license 64 away with `cutShort`, which holds exactly then; the last of a chain has none. |
| Successors.MembersAgree | controlplane/cpstore/renewal.go:34-54 | All the licenses of a chain that are at most 64 links before its end, and not the end, are given that same end. |
| Successors.AnswersOnlyAdvance | controlplane/cpstore/renewal.go:34-54 | Whatever happens in between, an instance that asks again is given the same license or one that follows it. |
| Journal.JournalTellsAll | controlplane/cpstore/operator.go:280-321 | In every reachable state, replaying the journal over the customers the registry created gives the name and external id of every customer, and exactly the licenses issued from the console with their customer, terms and the one each succeeds; every renaming tells the name the customer had. |
| Journal.IssuedOnce | controlplane/sql/queries/operator.sql:13-19 | The journal tells exactly once of the issue of each license issued from the console. |
| RegistryStore.Store.InsertRow | controlplane/sql/queries/licenses.sql:15-23 | The row is left out when its id is there, refused on the other constraints, and inserted otherwise. |
| RegistryStore.Store.CreateCustomer | controlplane/cpstore/operator.go:83-115 | The tables and the outcome of creating a customer; the invariant is kept. |
| RegistryStore.Store.UpdateCustomer | controlplane/cpstore/operator.go:117-156 | The tables and the outcome of renaming a customer; the invariant is kept. |
| RegistryStore.Store.AddLicense | controlplane/cpstore/licenses.go:33-64 | The tables and the outcome of recording a license of the registry file: its customer is rolled back with a refused license and stays with one left alone. |
| RegistryStore.Store.RecordIssuedLicense | controlplane/cpstore/operator.go:170-227 | The tables and the outcome of recording an issued license; the invariant is kept. |
| RegistryStore.Store.ShowLicenseKey | controlplane/cpstore/operator.go:229-250 | The journal and the outcome of showing a key again. |
| Confirmations.ShownByExactlyOne | controlplane/console/writes.go:381-447 | Over every interleaving, a license issued from the console is shown by exactly one confirmation, which shows the value recorded, for the customer and with the content it asked for. |
| ConfirmationSteps.WithoutARefusalTheKeyIsShown | controlplane/console/writes.go:381-447 | From any state, a confirmation that meets no refusal ends on its key: its five steps can be taken in a row, and leave the license recorded as asked. |
| ConfirmationSteps.CustomerTells | controlplane/console/writes.go:391-394 | The customer is unknown, not issuable or changed exactly when its own condition holds of the store and the form. |
| ConfirmationSteps.FormTells | controlplane/console/writes.go:396-401 | The form is refused exactly when its rules are not met or it asks for all the features and some. |
| ConfirmationSteps.IdTells | controlplane/console/writes.go:402-404 | A free id is always gone on with; a taken one is redirected exactly when it was recorded with what the draft says, and refused otherwise. |
| ConfirmationSteps.SigningTells | controlplane/console/writes.go:406-412 | The signer refuses exactly when it gives no key. |
| ConfirmationSteps.RecordingTells | controlplane/console/writes.go:413-435 | The record shows the key, tells a conflict, breaks, or finds the id taken, each exactly when its own condition holds of the licenses and of the request. |
| ConfirmationSteps.RecordingLeaves | controlplane/console/writes.go:413-446 | The store changes exactly when the key is shown, by the license of the request and nothing else. |
| ConfirmationSteps.SecondLookTells | controlplane/console/writes.go:431-438 | A license found taken after the record is redirected or refused by what it says, and is always there. |
| Repeats.RepeatsAreRedirected | controlplane/console/writes.go:381-472 | Once a confirmation is answered by the key, over every interleaving: another one of that id whose form was accepted ends redirected when it asks for the same license of the same customer, unless the signer refuses; when it asks for another, it ends refused, in conflict, or refused by the signer, and never redirected nor shown a key. |
| Repeats.LaterOnesToo | controlplane/console/writes.go:381-472 | The same of one that comes later or is at its first step, but for what it may be told of its customer or its form. |
| Repeats.TheLookAtTheIdDecides | controlplane/console/writes.go:403-445 | The look at the id, the first one or the one after the record, redirects a repeat and refuses another draft: at that step, and nothing else. |
| Repeats.RecordOfARepeat | controlplane/console/writes.go:413-445 | A repeat already past its first look adds nothing and is told that the id is taken: no conflict, no failure. |
| Repeats.TakenTellsApart | controlplane/console/writes.go:449-472 | The license recorded is the content of the other draft exactly when the two requests ask for the same license of the same customer. |
| Confirmations.TakenIsAlwaysReadable | controlplane/console/writes.go:431-438 | No confirmation ever finds its id taken by a license that cannot be read. |
| Confirmations.RecordingIsOfTheDraft | controlplane/console/writes.go:413-415 | A key that is recorded was under a free id, and its row is of the customer and the content of the request, though other acts came between its steps. |
| Confirmations.StoreIsReachable | controlplane/console/writes.go:381-447 | Whatever the requests do, the store is in a state the registry reaches, where all the above holds. |
| DraftForm.ComesBack | controlplane/issuing/draft.go:480-508 | Any draft comes back from its own form exactly when the rules find no problem in it, it expires at the end of a day and its note is trimmed: numbers, features and expiry included. |
| DraftForm.AcceptedIsSound | controlplane/issuing/draft.go:175-233 | What is accepted of any form has no problem for the signing either, expires at the end of a day, has its note trimmed, and says all the features or lists some. |
| DraftForm.ConfirmedUntilItExpires | controlplane/console/writes.go:396-401 | A draft that was accepted comes back at the confirmation, at any later instant, exactly as long as it has not expired. |
| DraftRules.NoProblemIsTheRules | controlplane/issuing/draft.go:292-380 | A draft has no problem exactly when it meets the rules, told without them: its id, texts, note, features, numbers, expiry and telemetry. |
| DraftRules.EachProblemIsTold | controlplane/issuing/draft.go:292-380 | Each problem is told of a draft exactly when the draft has it. |
| DraftParsing.ParseDraft | controlplane/issuing/draft.go:178-233 | A form is accepted as the draft it says, field by field, and that draft meets the rules; otherwise what is told is exactly what is wrong with the form and with that draft. |
| DraftParsing.FindProblems | controlplane/issuing/draft.go:292-380 | The problems of a draft in their order, the names listed gone through in a loop. |
| DraftParsing.WriteForm | controlplane/issuing/draft.go:483-508 | The fields of a draft, the names added one by one. |
| DraftParsing.ReadNumber | controlplane/issuing/draft.go:272-290 | A number, and the problem told when it cannot be read or no int holds it. |
| Numbers.WrittenIsRead | controlplane/issuing/draft.go:495-503 | Every number of 64 bits that is written in decimal is read as itself, and has no space around it. |
| Numbers.AtoiTells | controlplane/issuing/draft.go:272-290 | A text is read as a number exactly when it is digits, with a sign or not, that say one of 64 bits, and as that number; a text that says more is told apart from one that says none. |
| Texts.TrimIsTrimmed | controlplane/issuing/draft.go:182-194 | Trimming leaves no space around a text, and trimming again changes nothing. |
| Texts.TrimTakesSpace | controlplane/issuing/draft.go:182-194 | Trimming takes away space only, and only at the two ends. |

## Left out

The recognizer:

- The model, the tokenizer and the objects that explain a finding are given functions; the tokens of a text are one list of records and not four lists zipped together, and are taken to be in the order of the text.
- Scores are real numbers: how a mean rounds is not modelled.
- The explanation of a finding and the metadata copied with it are one value.
- The settings of the chunker are those its constructor, which is not part of this repository, accepts: an overlap below the size, and one boundary character at least.
- The files of the model, the threads and the settings read at start.

The connection manager:

- The channels and timers of the shutdown and of the reaper: each locked body is a step, in any order.
- What a client is: it is known by the call of the provider that returned it. Errors in closing are only logged, and change nothing here.
- The order in which Go goes through a map: the methods take the keys in any order.

The control plane:

- Seals, fingerprints and signatures are given functions. A license is found by the fingerprint its reports carry, and a key kept twice is told by its value and not by its fingerprint.
- The failures of the database, its pool and the length of its types; counts made by transactions at once, which the code accepts to be over a cap by a few rows.
- The rejections counted, which a promotion counts on its own day and a reception on that of the report, are not compared between the two orders.
- IssueOrder.SameInstanceRow: is stated where no first report of a day is masked; where one is, the two orders do not keep the same reports in the first place.
- Promotion.PromotedAsReceived: takes reports received at increasing instants, none turned away for want of room, of no more instances than a license may be seen on; beyond the caps the two orders keep different reports.
- The purge of old pending reports, the pass that lists the fingerprints now known, and the asks for a renewal that are recorded.
- The kid, the fingerprint of the signing key and the instants a row was created or changed at.
- Instants are whole seconds, and the day of an instant, its text and the day ten years on are given functions of which a form only needs that a day is read as it is written.
- Texts are sequences of characters: text that is not valid UTF-8 cannot be written here. Which characters are control or formatting ones is given.
- The drafts that a page proposes, short or of a renewal, and the page that tells before the click that a renewal would be refused: the store decides when the license is recorded.
- The promotion of pending reports that follows an issue, which other tables hold.
- Pages, routes, headers, the gate, metrics and logs.

The bench:

- The key of a row is given; two rows of one key are two occurrences of it.
- The rule of a column that follows its parent, the orphans, and reading the rows. A row has a value for each column.
- The text of the samples: a gap is told of its key or its value.
