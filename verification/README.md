# Verification of the JobAgg core

Dafny models of the parts of JobAgg whose promises range over unbounded inputs or over
whole histories of crashes and restarts, with proofs of those promises. Run
`dafny verify dfyconfig.toml` to check everything.

| files | model of |
|---|---|
| `Utf8`, `JsonSyntax`, `PlanParsing`, `PlanNumbers`, `PlanProjection`, `PlanTheorems`, `PlanSoundness`, `PlanReader`, `PlanReading`, `PlanSpelling` | the streaming, projecting JSON reader for historical plans |
| `RemovalProtocol`, `ArchiveRemoval` | crash-resumable removal of isolated originals, with byte credit, on a machine that may lose power |
| `MigrationProtocol`, `ArchiveMigration` | additive archive pages, on a machine that may lose power |
| `HtmlText` | the HTML fragment renderer |
| `JobLifecycle`, `JobStore` | job rows, the change log, and the full-text mirror kept by triggers |
| `BaselineBatch`, `BaselineInventory`, `BaselineRuns` | batches of the live baseline import |
| `AtomicJsonStore` | processes that share one locked JSON file |
| `PublicationBootstrap` | the checkpointed export bootstrap |
| `MonitorWindow` | the monitor's window of attempts and its alerts |
| `BoundedBody` | reading and decoding a response body under one cap |
| `Marks` | directory entries that a loss of power may take |
| `Wrappers` | optional values and results, shared by all |

## How the models are built

Objects that the source updates in place are classes with the same fields; loops are
loops. Each such method is proved against a function or a relation, and the theorems are
about those. Where the source may be stopped by a crash, a deadline or a failing check of
its surroundings, the model has a point (`Point`, or a coin) that nondeterministically
raises `Interrupted`; the flag `calm` says that none of these fires, and the liveness
results are about calm runs. Durable files are fields that are written in the source's
order, so that what a crash leaves behind is simply the object when a method raised.

The reader is proved in three layers. `PlanParsing` is the parser as a function of the
whole text. `PlanReader.Reader` is the source's class, with its buffer and reads of
nondeterministic size, and each method does to the text ahead what the parser does.
`JsonSyntax` holds the grammar of sections 2 to 7 of RFC 8259 as concrete syntax trees
with a printer and a meaning; the parser accepts exactly what the printer prints within
the bounds, and yields the projection of its meaning.

Strings are sequences of UTF-16 code units, which determine Python's string; numbers are
tokens, and a number is refused as non-finite exactly when it has a fraction or an
exponent and overflows binary64. The 16 MiB bound on one selected string counts its
unescaped characters only, as the code does. Which of two messages, the string bound or
the retained bound, is raised depends in the code on where reads split a run of
characters; both are the one error `RetentionBound`, and whether one of them is raised does
not depend on it.

Hashes are functions given as parameters. A digest check is a comparison of values where
the source compares digests of them.

## Where a promise needs a condition

- Power loss in a removal. A record is published by linking it and then syncing the
  directory of all records; a page killed in between leaves a record that the next page
  takes for granted and a loss of power may take. Whatever the kills and losses, credit is
  sound: what is on record, and all that pages were ever granted, is at most the sizes of
  the distinct originals that were unlinked and are durably gone
  (`ArchiveRemoval.Removal.CreditSound`). What needs a condition is that the records fit
  together, that is, that every missing original has its intent and every completion its
  receipt. Where they do, calm pages finish the plan (`ArchiveRemoval.FollowPages`); where a
  loss of power left them otherwise, no page ever does, whatever happens
  (`RemovalProtocol.LossBreaks`, `RemovalProtocol.NeverFinishes`). After a page, wherever
  it ended, and then a loss of power they do if and only if before the page the intents
  of missing originals and the receipts of completed items were durable, and the first item
  the page had to do something about had no intent and no receipt that were only published;
  later items need no condition, since publishing any record of that item syncs theirs too
  (`RemovalProtocol.PageSurvivesPowerLoss`). It is enough that no record awaits its sync
  when a page starts (`RemovalProtocol.SettledIsCareful`), as is so after a loss of power
  and stays so over every page that is not killed between a link and its sync
  (`RemovalProtocol.OnlyBetween`). The totals a page reports survive a loss of power exactly
  when no receipt was only published (`RemovalProtocol.TotalsSurvive`), and a page that
  finishes has either changed nothing or left nothing to sync. `UnsyncedIntentLost`,
  `UnsyncedReceiptLost` and `UnsyncedCreditLost` are the shortest runs in which these fail.
  All of this is about losses of power that leave the directory of the records, which a
  page creates and nothing syncs into its parent; one that takes it leaves the records
  fitting together exactly when no original was missing (`RemovalProtocol.RecordsLost`).
- Power loss in a migration. Additive pages publish records as removals do, and take a
  representation for granted that an earlier page was killed before syncing. Originals are
  never at risk. A loss of power leaves every claimed representation there and the completed
  items a prefix if and only if what is claimed was durable; over a page, that is so if and
  only if it was so before and the page started carefully
  (`MigrationProtocol.PageSurvivesPowerLoss`). Taking up the next item publishes its intent
  and so makes the completions before durable, but four kills in a row defeat that
  (`MigrationProtocol.CompletionOvertakes`). A hole among the completed items is filled by
  later pages; an item whose representation was lost is never passed again
  (`MigrationProtocol.UnsyncedRepresentationLost`, `MigrationProtocol.NeverPassed`).
- Power loss over the JSON store. A mutation that changed the document and returned survives
  every loss of power exactly when the directory was synced after its effect; a failed sync
  is passed over, and the mutation returns all the same
  (`AtomicJsonStore.SurvivesIfSynced`, `AtomicJsonStore.ReturnsSynced`). One that only read
  needs no sync of its own. The target is one complete document regardless.
- Decoding under the cap. A decompressor that has written all it may goes on until it must
  write again, and may come to a malformed place before. A malformed body is therefore
  returned undecoded not only when its output up to that place is within the cap, but also
  one byte over it, unless that byte comes out of an earlier chunk
  (`BoundedBody.MalformedAsIs`).
- Thresholds. A row's stored count tells its status exactly for thresholds of at least one
  (`JobLifecycle.CountTellsFromOne`); smaller ones act as one for rows that were not seen.
- Baseline paging starts after the empty key, so it visits every live row exactly when no
  row has that key (`BaselineBatch.EmptyKeyIsSkipped`).
- Running a baseline batch again writes nothing for the rows that were committed. It
  writes at all if and only if the budgets now let it reach a further row that calls for
  writing, told from the worker as the first run left it; that takes a metadata budget
  that had ended the first run, since the repeated changes may be lighter
  (`BaselineRuns.Reexecute`, and `BaselineRuns.RerunReachesFurther` for a run in which it
  happens). Once the whole inventory was followed, nothing is written any more, from any
  cursor and under any budgets (`BaselineRuns.QuietForever`).
- The monitor's window keeps the latest attempts for every window size but zero, for which
  the slice keeps everything (`MonitorWindow.KeptIsLast`). Attempts may be observed again
  with other outcomes, and even with other start times: after one observation the window is
  still the latest part of everything observed if and only if the attempt was not in the
  window or still starts after every forgotten one (`MonitorWindow.ObservedRight`;
  `MonitorWindow.MovedBack` is the smallest case in which it is not). The source takes the
  start from the file of the attempt's intent alone (monitor.py:404, 430), so it moves only
  if that file is changed.

## Model

| member | source | states |
|---|---|---|
| `PlanReading.ReadPlan` | packages/jobagg/jobagg/historical_plans.py:230-294 | reading succeeds if and only if the bounds are legal, the file did not change, the digest is the expected one, and the bytes are well-formed UTF-8 of a plan within the bounds; the value and the byte and character counts are then those of the whole text, however the reads split the bytes |
| `PlanReading.ReadDocument` | packages/jobagg/jobagg/historical_plans.py:271-276 | a document is read as the parser reads the whole text; on success all input was consumed, counted and hashed, and on failure of readable input the parser fails with the same error |
| `PlanReading.AcceptedTexts` | packages/jobagg/jobagg/historical_plans.py:106-227 | a text is accepted if and only if it is the spelling of some JSON document that is within depth, item and key bounds, has distinct keys, and can be afforded under the selector |
| `PlanReading.DocumentPrinted` | packages/jobagg/jobagg/historical_plans.py:148-227 | any spelling of a document, with any legal white space and escapes, reads back as the projection of its meaning if it is structured and affordable, and otherwise fails |
| `PlanReading.DocumentParsed` | packages/jobagg/jobagg/historical_plans.py:148-227 | every text that is accepted is the printing of a document |
| `PlanReading.SelectiveRefinesFull` | packages/jobagg/jobagg/historical_plans.py:148-227 | whenever reading under a selector and reading everything both succeed, the first value is the recursive projection of the second |
| `PlanReading.SelectorsAcceptSameTexts` | packages/jobagg/jobagg/historical_plans.py:148-227 | what one selector accepts every other accepts too, unless its own retention bounds refuse it |
| `PlanReading.PrintedReadsBack` | packages/jobagg/jobagg/historical_plans.py:106-227 | an accepted document reads back unchanged under the selector that keeps everything |
| `PlanReading.EncodedPlan` | packages/jobagg/jobagg/historical_plans.py:230-294 | the encoded printing of a document is a plan exactly when it fits, is accepted under the plan selector and is an object; the plan is its projection |
| `PlanReading.KeepsAll` | packages/jobagg/jobagg/historical_plans.py:173-184 | the selector that keeps everything projects to the value itself |
| `PlanSpelling.ValueReadsBack` | packages/jobagg/jobagg/historical_plans.py:106-227 | every JSON value within the bounds and with distinct keys has a spelling that reads back to it |
| `PlanSpelling.SpellingMeans` | packages/jobagg/jobagg/historical_plans.py:106-227 | that spelling is legal, means the value and is structured |
| `PlanTheorems.CorePrinted` | packages/jobagg/jobagg/historical_plans.py:156-227 | a printed value is read to its end, whatever follows, with the projection of its meaning and exactly its demand charged |
| `PlanTheorems.MembersPrinted` | packages/jobagg/jobagg/historical_plans.py:158-187 | printed members are read if and only if their keys are fresh after unescaping, they are structured and affordable; then the kept fields are the projected ones in order |
| `PlanSoundness.ValueParsed` | packages/jobagg/jobagg/historical_plans.py:148-227 | what is read as a value was the printing of a document, and a bare word ended at a delimiter |
| `PlanNumbers.NumberPattern` | packages/jobagg/jobagg/historical_plans.py:59 | the number pattern accepts exactly the tokens of section 6 of RFC 8259 |
| `PlanReader.Reader.Fill` | packages/jobagg/jobagg/historical_plans.py:75-90 | filling terminates, leaves the text ahead as it is, and fails only on input that is too long or not UTF-8 |
| `PlanReader.Reader.Whitespace` | packages/jobagg/jobagg/historical_plans.py:100-104 | skips exactly the white space of the whole text ahead, across reads |
| `PlanReader.Reader.String` | packages/jobagg/jobagg/historical_plans.py:106-146 | reads a string as the parser does, with the same charge and the same error, across reads |
| `PlanReader.Reader.ReadValue` | packages/jobagg/jobagg/historical_plans.py:148-156 | reads a value as the parser does; retained characters and nodes stay within their bounds |
| `PlanReader.Reader.Object` | packages/jobagg/jobagg/historical_plans.py:158-187 | the same for an object |
| `PlanReader.Reader.Array` | packages/jobagg/jobagg/historical_plans.py:188-213 | the same for an array |
| `PlanReader.Reader.Scalar` | packages/jobagg/jobagg/historical_plans.py:216-227 | the same for a bare word |
| `PlanReader.BodyRun` | packages/jobagg/jobagg/historical_plans.py:109-121 | taking a run of unescaped characters at once is taking them one by one, with the bounds checked after each |
| `PlanReader.BlockDecoded` | packages/jobagg/jobagg/historical_plans.py:82-90 | decoding block by block gives the text of the whole, and finds a defect if and only if the whole has one |
| `Utf8.DecodeAppend` | packages/jobagg/jobagg/historical_plans.py:68-88 | an incremental decoder, split anywhere, inside a character too, decodes the concatenation |
| `Utf8.DecodeEncode` | packages/jobagg/jobagg/historical_plans.py:68-88 | decoding an encoded text gives it back, with nothing left |
| `ArchiveRemoval.Removal.Execute` | packages/jobagg/jobagg/isolated_archive_removal.py:338-530 | in every run, crashed or not: the slots are what some prefix of the page's steps makes of them, nothing recorded is taken back, the records fit together after as before, and what is relied on stays durable if the page started carefully; a page goes exactly as far as its budgets allow, reports the credit it granted and put on record, `complete` exactly when all items are, and has changed nothing or left no record to sync; items beyond it were at most synced; a calm page within its limits succeeds if the records fit together, and only if they do not does a check of theirs stop it |
| `ArchiveRemoval.Removal.RemoveItem` | packages/jobagg/jobagg/isolated_archive_removal.py:402-514 | wherever the run ends, the slots are as some number of steps of the page leaves them; when it returns, the item is completed, the page changed nothing or left no record to sync, and the credit, granted and on record, is the item's size exactly when it had no receipt and its original was still there |
| `ArchiveRemoval.Removal.RemoveOriginal` | packages/jobagg/jobagg/isolated_archive_removal.py:430-497 | the receipt is durable, credits the size exactly when the original was there, and says absent exactly when it was not |
| `ArchiveRemoval.Removal.Exclusive` | packages/jobagg/jobagg/historical_storage.py:98-111 | a record is published and then made durable together with all other records; wherever it ends, it has taken these two steps in this order |
| `ArchiveRemoval.Removal.Summary` | packages/jobagg/jobagg/isolated_archive_removal.py:311-335 | succeeds if and only if all records are consistent, with the confirmed bytes, the uncredited bytes and the number of complete items |
| `ArchiveRemoval.CreditAccounts` | packages/jobagg/jobagg/isolated_archive_removal.py:311-335 | confirmed and uncredited bytes together are the sizes of the receipted items |
| `ArchiveRemoval.CreditIsReal` | packages/jobagg/jobagg/isolated_archive_removal.py:311-335 | confirmed bytes, and all credit granted, never exceed the sizes of the distinct originals that were unlinked and are durably gone; granted credit is on record unless all records were lost |
| `ArchiveRemoval.FollowPages` | packages/jobagg/jobagg/isolated_archive_removal.py:338-530 | from every state in which the records fit together, calm pages chained by the next index, with room for the largest item, complete all items and remove all originals; no byte is credited twice |
| `RemovalProtocol.NeverFinishes` | packages/jobagg/jobagg/isolated_archive_removal.py:311-335 | once an original is gone without an intent or completed without a receipt, no sequence of pages, each ended anywhere, and further losses of power reaches a summary that succeeds with every item complete |
| `RemovalProtocol.LossBreaks` | packages/jobagg/jobagg/isolated_archive_removal.py:311-335 | a loss of power after which the records do not fit together leaves such an item |
| `RemovalProtocol.RunsKeep` | packages/jobagg/jobagg/isolated_archive_removal.py:385-516 | whatever steps a page takes, records are neither taken back nor altered, receipts are only for originals durably gone, and the records fit together after exactly if before |
| `RemovalProtocol.PowerLossKeepsWhole` | packages/jobagg/jobagg/historical_storage.py:98-111 | every loss of power leaves the records fitting together if and only if the intents of missing originals and the receipts of completed items were durable |
| `RemovalProtocol.TotalsSurvive` | packages/jobagg/jobagg/isolated_archive_removal.py:311-335 | every loss of power leaves the confirmed and uncredited totals as they were if and only if no receipt of an original with any bytes was only published |
| `RemovalProtocol.RecordsLost` | packages/jobagg/jobagg/isolated_archive_removal.py:382-384 | a loss of power that takes the directory of the records leaves them fitting together if and only if no original was missing |
| `RemovalProtocol.PageSurvivesPowerLoss` | packages/jobagg/jobagg/isolated_archive_removal.py:385-516 | a page, ended anywhere, and then a loss of power leave the records fitting together if and only if what they rely on was durable before the page and the first item it had to do something about had no intent and no receipt that were only published |
| `RemovalProtocol.Unsettles` | packages/jobagg/jobagg/isolated_archive_removal.py:411-427 | a page whose first item to do something about has an intent or a receipt that was only published can end with the original unlinked, or the completion published, on the strength of it |
| `RemovalProtocol.RunsSafely` | packages/jobagg/jobagg/isolated_archive_removal.py:386-516 | whatever steps a page takes that starts carefully, what is relied on stays durable |
| `RemovalProtocol.OnlyBetween` | packages/jobagg/jobagg/historical_storage.py:108-109 | from a state with no record to sync, a page leaves one only if it ends between a link and its sync |
| `ArchiveRemoval.Removal.PowerLoss` | packages/jobagg/jobagg/historical_storage.py:98-111 | at any time, a loss of power takes any of what was not synced and leaves everything else durable; credit stays sound, and the records fit together if what they rely on was durable |
| `ArchiveRemoval.Removal.CreditSound` | packages/jobagg/jobagg/isolated_archive_removal.py:311-335 | at every moment, whatever kills and losses of power there were, confirmed bytes and all credit granted are at most the sizes of the distinct originals that were unlinked and are durably gone, and receipted bytes are accounted for; credit granted is on record while the directory of the records is there |
| `RemovalProtocol.UnsyncedIntentLost` | packages/jobagg/jobagg/isolated_archive_removal.py:412-425 | two killed pages and a loss of power after which an original and its intent are gone and no page does anything |
| `RemovalProtocol.UnsyncedReceiptLost` | packages/jobagg/jobagg/isolated_archive_removal.py:425-511 | two killed pages and a loss of power after which a completion is there without its receipt and no page gets past its summary |
| `RemovalProtocol.UnsyncedCreditLost` | packages/jobagg/jobagg/isolated_archive_removal.py:487-519 | a killed page, a page that reports the receipt and writes nothing, and a loss of power after which the same bytes are reported as absent without credit |
| `ArchiveMigration.Migration.ExecutePage` | packages/jobagg/jobagg/archive_migration.py:378-503 | in every run, crashed or not: the slots are what some prefix of the page's steps makes of them, originals are untouched, nothing recorded or stored is taken back, claimed representations are there after as before, completions stay a prefix, and both stay so for good if the page started carefully; a page goes as far as its budgets cover the items that were not complete, reports these and completeness exactly, and has changed nothing or left no record to sync; every item before was read back: its original is in place and its representation restores it; a calm page over usable items succeeds, and one that a check stops names an item at fault |
| `ArchiveMigration.FollowPages` | packages/jobagg/jobagg/archive_migration.py:338-503 | over a compressor whose output restores, calm pages with room for the largest item complete the review from any state in which claimed representations are there, whichever items are complete by then, with every original in place and restored by its representation |
| `ArchiveMigration.Migration.Represent` | packages/jobagg/jobagg/archive_migration.py:418-476 | nothing is recorded as installed that was not read back, whatever the compressor does; it fails, undisturbed, only for a compressor whose output does not restore or an installed representation that is gone |
| `ArchiveMigration.Migration.PowerLoss` | packages/jobagg/jobagg/historical_storage.py:98-111 | at any time, a loss of power takes any of what was not synced; the records are in order afterwards if what they claim was durable |
| `MigrationProtocol.RunsKeep` | packages/jobagg/jobagg/archive_migration.py:378-503 | whatever steps a page takes, originals are untouched, nothing is taken back, claimed representations are there after exactly if before, and completions stay a prefix |
| `MigrationProtocol.PowerLossKeepsOrder` | packages/jobagg/jobagg/historical_storage.py:98-111 | every loss of power leaves claimed representations there and completions a prefix if and only if these representations, and the completions before another, were durable |
| `MigrationProtocol.PageSurvivesPowerLoss` | packages/jobagg/jobagg/archive_migration.py:378-503 | a page, ended anywhere, and then a loss of power leave the records in order if and only if that was durable before the page, and the first item it had to do something about had no representation that was only published and, unless it still lacked a record that the page syncs before completing it, only durable completions before it |
| `MigrationProtocol.RunsSafely` | packages/jobagg/jobagg/archive_migration.py:378-503 | whatever steps a page takes that starts carefully, what is claimed stays durable |
| `MigrationProtocol.NeverPassed` | packages/jobagg/jobagg/archive_migration.py:386-402 | where a claimed representation was lost, no page gets past its item |
| `MigrationProtocol.UnsyncedRepresentationLost` | packages/jobagg/jobagg/storage_compression.py:2349-2506 | a page killed between putting a representation in place and syncing it, a page that completes the item, and a loss of power after which the completion is durable and the representation gone |
| `MigrationProtocol.CompletionOvertakes` | packages/jobagg/jobagg/archive_migration.py:411-502 | four killed pages and a loss of power after which the second item is complete and the first is not |
| `HtmlText.FragmentText.Feed` | packages/jobagg/jobagg/html_text.py:27-63 | the handlers, which search and cut the stack in loops, run the stack machine |
| `HtmlText.FragmentRun` | packages/jobagg/jobagg/html_text.py:37-63 | the events of any well-formed fragment, from any state, append exactly its recursive visible text and restore the stack |
| `HtmlText.AnyRun` | packages/jobagg/jobagg/html_text.py:33-63 | over any event stream, even malformed, hidden flags stay monotone up the stack, so the top tells; output only grows |
| `HtmlText.ClosedIsPrefix` | packages/jobagg/jobagg/html_text.py:47-52 | an end tag cuts the stack at its innermost match, and cuts nothing if there is none |
| `HtmlText.PrunedText` | packages/jobagg/jobagg/html_text.py:37-63 | removing all hidden elements from a fragment leaves its text as it was |
| `HtmlText.FragmentRendered` | packages/jobagg/jobagg/html_text.py:66-78 | a fragment renders as the words of its visible text, joined by single spaces |
| `HtmlText.CollapseIsWords` | packages/jobagg/jobagg/html_text.py:78 | replacing runs of space and stripping is joining the words |
| `HtmlText.CollapseKeepsWords` | packages/jobagg/jobagg/html_text.py:66-78 | the result has no leading, trailing or doubled space, keeps the non-space characters and the words in order, and is a fixed point |
| `HtmlText.RenderHtmlText` | packages/jobagg/jobagg/html_text.py:66-78 | the result for any events: nothing for no value or no text |
| `JobLifecycle.EveryLogIsChain` | packages/jobagg/jobagg/db.py:927-1033 | over all interleavings of upserts and marks, a job's log starts with its one `created` event, each old hash is the last new hash before it, and the stored hash is the last one |
| `JobLifecycle.VisitsCount` | packages/jobagg/jobagg/db.py:3313-3388 | after any runs of upsert-then-mark, a live row's count is its number of consecutive unseen runs, and it is missing exactly when that reached the threshold |
| `JobLifecycle.CountTellsFromOne` | packages/jobagg/jobagg/db.py:3338-3361 | the stored count alone tells that exactly for thresholds of at least one |
| `JobLifecycle.VisitsSeparate` | packages/jobagg/jobagg/db.py:935-944 | between two `missing` events of a job lies a `reopened` one |
| `JobStore.JobDatabase.UpsertJob` | packages/jobagg/jobagg/db.py:910-1036 | one key's row and log advance by one upsert, all others stay; the returned word says whether anything changed; the mirror stays right |
| `JobStore.JobDatabase.MarkMissing` | packages/jobagg/jobagg/db.py:3313-3388 | every row and log advances by one marking, in whatever order rows come; returned counts are the events appended |
| `JobStore.JobDatabase.FetchRun` | packages/jobagg/jobagg/db.py:910-1036 | a run of upserts and one marking is one visit of every key, repeated keys included; when all fetched jobs are open, the counts are the events of the whole run |
| `JobStore.JobDatabase.EnsureFts` | packages/jobagg/jobagg/db.py:846-901 | after creation, on a populated table too, and after every later insert, update and delete, the index is the one built from scratch |
| `JobStore.JobDatabase.Update` | packages/jobagg/jobagg/db.py:887-892 | the trigger removes exactly the old row's terms and adds the new row's |
| `JobStore.JobDatabase.Rebuild` | packages/jobagg/jobagg/db.py:900-901 | a rebuild, row after row in any order, gives the index built from scratch |
| `JobStore.BuiltFrom` | packages/jobagg/jobagg/db.py:846-901 | the index built from scratch does not depend on the order of rows |
| `BaselineBatch.Prepare` | packages/jobagg/jobagg/baseline_inventory.py:443-531 | a batch holds the changes of the next rows in key order, as many as the row and metadata budgets allow and at least one if rows remain, with genuine bytes within the byte budget; undisturbed, it succeeds if and only if the next row fits and no row the budgets reach is malformed |
| `BaselineBatch.Attachments` | packages/jobagg/jobagg/baseline_inventory.py:321-365 | the loop over a row's attachments judges them one after the other and collects new blobs |
| `BaselineBatch.AllJudgedTruly` | packages/jobagg/jobagg/baseline_inventory.py:321-365 | an attachment is verified exactly when its bytes are archived with the batch, and otherwise the status is the true reason; each distinct blob is charged once; earlier verdicts stand |
| `BaselineBatch.PreparedIsHonest` | packages/jobagg/jobagg/baseline_inventory.py:443-531 | over a whole batch: distinct bytes within the byte budget, all of them genuine, all attachments judged truly |
| `BaselineBatch.FitsFewer` | packages/jobagg/jobagg/baseline_inventory.py:520-528 | what fits the metadata budget fits it with fewer rows |
| `BaselineBatch.AfterContinues` | packages/jobagg/jobagg/baseline_inventory.py:443-450 | the query from a batch's last key returns exactly the rows the batch left |
| `BaselineBatch.EmptyKeyIsSkipped` | packages/jobagg/jobagg/baseline_inventory.py:445-448 | paging from the empty key visits all rows if and only if none has the empty key |
| `BaselineRuns.FollowBatches` | packages/jobagg/jobagg/baseline_inventory.py:368-719 | following the cursor, with any budgets, as long as no batch fails, partitions the visited rows into non-empty batches in key order; all of them end up archived and none calls for writing any more; undisturbed, no batch fails when hashes are clear, metadata is well formed, worker keys tell identities apart, and every change that may come up while these rows are imported fits the metadata budget |
| `BaselineRuns.SomeBudget` | packages/jobagg/jobagg/baseline_inventory.py:496-528 | for every inventory that meets the other three conditions there is such a metadata budget, whatever changes weigh |
| `BaselineRuns.StubsAreRegular` | packages/jobagg/jobagg/baseline_inventory.py:496-528 | two rows and the worker's stubs of them meet the conditions |
| `BaselineInventory.Worker.Reconcile` | packages/jobagg/jobagg/baseline_inventory.py:368-719 | a batch is imported as a whole or not at all, only as reviewed, and a preview writes nothing; archived rows, blobs and verified statuses never regress, and every verified attachment has its bytes archived under their hash; undisturbed and with clear hashes, it succeeds if and only if the batch can be prepared and no two of its changes want one key |
| `BaselineInventory.Worker.Import` | packages/jobagg/jobagg/baseline_inventory.py:591-712 | the jobs and links afterwards are those before with exactly the batch's writes, each under its own key; with clear hashes only a key wanted twice can make it fail |
| `BaselineInventory.InjectiveIsClear` | packages/jobagg/jobagg/baseline_inventory.py:58-63 | injective hashes are clear: neither archived bytes nor archived rows can conflict |
| `BaselineInventory.UpdateIsAlone` | packages/jobagg/jobagg/baseline_inventory.py:149-162 | no two changes of a batch update one worker row |
| `BaselineInventory.Settled` | packages/jobagg/jobagg/baseline_inventory.py:165-218 | once a batch is committed, looking again at any of its rows, written or not, gives a verdict that preserves or archives |
| `BaselineInventory.StaysSettled` | packages/jobagg/jobagg/baseline_inventory.py:165-218 | and so it stays: no later batch makes a row call for writing that called for none |
| `BaselineRuns.QuietForever` | packages/jobagg/jobagg/baseline_inventory.py:368-719 | once every visited row is settled, no run from any cursor under any budgets writes a job or a link, and they stay settled |
| `BaselineInventory.NothingCertified` | packages/jobagg/jobagg/baseline_inventory.py:221-267 | importing certifies nothing: no row becomes listed or ready, only stubs change their description, and what a changed row was is kept |
| `BaselineRuns.Reexecute` | packages/jobagg/jobagg/baseline_inventory.py:368-719 | the same batch again writes nothing for the committed rows; it writes if and only if the budgets let it reach, over the worker as the first run left it, a further row that calls for writing, which is never so unless the metadata budget ended the first run |
| `BaselineRuns.RerunReachesFurther` | packages/jobagg/jobagg/baseline_inventory.py:496-528 | a run of two batches in which it does: filling a stub weighs its live row, before image and stored row, and looking at it again only the first two |
| `AtomicJsonStore.EveryRun` | packages/jobagg/jobagg/atomic_json_store.py:54-133 | over all interleavings, crashes and losses of power, the effects that remain form a serial history in which each mutation acted on the document the one before left, and the target is what that history leaves |
| `AtomicJsonStore.StepKeeps` | packages/jobagg/jobagg/atomic_json_store.py:54-133 | every step of every process, a crash too, keeps that, and takes no effect back |
| `AtomicJsonStore.LoseKeeps` | packages/jobagg/jobagg/atomic_json_store.py:112-126 | a loss of power keeps that, and takes back no effect that was synced |
| `AtomicJsonStore.TargetComplete` | packages/jobagg/jobagg/atomic_json_store.py:92-133 | the target is always what it was initially or one complete encoded document |
| `AtomicJsonStore.NothingLost` | packages/jobagg/jobagg/atomic_json_store.py:54-63 | effects are never undone by later steps while power lasts |
| `AtomicJsonStore.SurvivesIfSynced` | packages/jobagg/jobagg/atomic_json_store.py:121-126 | an effect survives whatever happens, losses of power too, if and only if every replacement up to it was synced; one that replaced the target does if and only if the directory was synced since |
| `AtomicJsonStore.TargetSurvives` | packages/jobagg/jobagg/atomic_json_store.py:121-126 | every loss of power leaves the target as it is if and only if before each replacement that was not synced it was what it is now |
| `AtomicJsonStore.ReturnsSynced` | packages/jobagg/jobagg/atomic_json_store.py:184-198 | a mutation returns with its effect durable if it synced the directory, and returns all the same, with no more durable than before, if it could not |
| `AtomicJsonStore.FinishedCall` | packages/jobagg/jobagg/atomic_json_store.py:54-63 | a call that returned had exactly one effect since it began, with that outcome; one that raised had it wholly or not at all |
| `AtomicJsonStore.Exclusive` | packages/jobagg/jobagg/atomic_json_store.py:136-156 | at most one process is in the locked section |
| `AtomicJsonStore.WritePayload` | packages/jobagg/jobagg/atomic_json_store.py:112-118 | the loop over partial writes writes exactly the payload, or fails with a proper prefix |
| `PublicationBootstrap.Bootstrap.Step` | packages/jobagg/jobagg/publication_bootstrap.py:122-237 | in every run, crashed or not, the saved value is a checkpoint: a boundary per finished database, exports for exactly those, recorded bytes within the total; it only continues the one before; a step that returns has what is certified on disk, and is complete exactly when the whole scope is covered |
| `PublicationBootstrap.Bootstrap.Recheck` | packages/jobagg/jobagg/publication_bootstrap.py:142-168 | the checks of the saved value pass if and only if every recorded export and every destination is unchanged; no other check can fail |
| `PublicationBootstrap.Bootstrap.Prepare` | packages/jobagg/jobagg/publication_bootstrap.py:101-119 | fails exactly for illegal limits or a changed contract, and resumes what was saved |
| `PublicationBootstrap.NextCheckpoint` | packages/jobagg/jobagg/publication_bootstrap.py:169-223 | four exports within their share of what remains keep the total within its limit and make the next checkpoint |
| `PublicationBootstrap.CompleteCoversScope` | packages/jobagg/jobagg/publication_bootstrap.py:224-236 | a certificate names every export of every database |
| `PublicationBootstrap.PagesStand` | packages/jobagg/jobagg/publication_bootstrap.py:151-163 | all page boundaries stand exactly when the recorded exports are intact |
| `PublicationBootstrap.FollowSteps` | packages/jobagg/jobagg/publication_bootstrap.py:122-237 | from any checkpoint, undisturbed steps complete the scope when the total covers the largest export four times per database |
| `MonitorWindow.Monitor.Sample` | reports/jobagg-cron-monitor-2026-10-22/monitor.py:578-620 | while observations are orderly, the window is the latest part of the latest records of everything ever observed; folding the alert changes gives the current alerts; the streak is that of the whole history, up to the window |
| `MonitorWindow.PutLast` | reports/jobagg-cron-monitor-2026-10-22/monitor.py:586-588 | the latest records after one is replaced or added depend only on the latest before, so forgetting the rest loses nothing |
| `MonitorWindow.WindowOfHistory` | reports/jobagg-cron-monitor-2026-10-22/monitor.py:586-588 | updating the window's dictionary, sorting and slicing gives the window of the whole history |
| `MonitorWindow.UpdateReplaces` | reports/jobagg-cron-monitor-2026-10-22/monitor.py:586-587 | a record replaces the one of its id and no other |
| `MonitorWindow.FixedStartsAreOrderly` | reports/jobagg-cron-monitor-2026-10-22/monitor.py:586-588 | observations are orderly when each attempt has one start time and no two the same, whatever else changes |
| `MonitorWindow.ObservedRight` | reports/jobagg-cron-monitor-2026-10-22/monitor.py:586-588 | after one more observation, which may move a start back, updating, sorting and slicing the window gives what it gives over the whole history if and only if the attempt was not in the window or the record starts after every forgotten one |
| `MonitorWindow.MovedBack` | reports/jobagg-cron-monitor-2026-10-22/monitor.py:586-588 | an attempt that is then said to have started before a forgotten one keeps its place in the window |
| `MonitorWindow.LatestByRank` | reports/jobagg-cron-monitor-2026-10-22/monitor.py:588 | a record is in the window exactly when fewer than the window's size started after it |
| `MonitorWindow.SortedAscending` | reports/jobagg-cron-monitor-2026-10-22/monitor.py:586-588 | sorting the merged records puts them, and nothing else, in ascending order |
| `MonitorWindow.KeptIsLast` | reports/jobagg-cron-monitor-2026-10-22/monitor.py:588 | the slice keeps the latest n exactly when n is positive or there is nothing |
| `MonitorWindow.A8Readiness` | reports/jobagg-cron-monitor-2026-10-22/monitor.py:470-491 | streak, overlap and downshift of a sequence of attempts, and readiness from them |
| `MonitorWindow.StreakIsMaximal` | reports/jobagg-cron-monitor-2026-10-22/monitor.py:477-485 | the streak is the length of the longest suffix of successes |
| `MonitorWindow.StreakOfWindow` | reports/jobagg-cron-monitor-2026-10-22/monitor.py:477-485 | over the window it is that of the whole history, up to the window |
| `BoundedBody.DecodeZlib` | packages/jobagg/jobagg/http.py:568-613 | decoding chunk by chunk with a shrinking output limit gives a function of the data: the whole output if it is well formed and within the cap, and otherwise an overflow or the malformed place, whichever is seen first; an overflow is told by the first byte over the cap |
| `BoundedBody.ReadCapped` | packages/jobagg/jobagg/http.py:487-504 | reads of any size give the body, or the first bytes up to the cap as evidence with one byte observed beyond |
| `BoundedBody.BoundedResponse` | packages/jobagg/jobagg/http.py:507-565 | the response is a function of its wire bytes, declared length and encoding |
| `BoundedBody.ResponseIsBounded` | packages/jobagg/jobagg/http.py:507-538 | a response is at most the cap, or evidence that is a prefix of the wire bytes, complete exactly when it says so |
| `BoundedBody.WithinCap` | packages/jobagg/jobagg/http.py:568-583 | a well-formed gzip body is returned decoded exactly when its output is within the cap |
| `BoundedBody.MalformedAsIs` | packages/jobagg/jobagg/http.py:529-583 | a malformed gzip body is returned as it is when its output up to the malformed place is within the cap, never when it is two bytes over, and one byte over exactly when the byte comes out of the chunk with the malformed place |

## Left out

- Deadlines, owner locks, disk-space checks, file stamps and directory aliases: they only
  abort, and are part of the nondeterministic interruptions (for the plan reader one flag
  says that the file did not change).
- Reading a plan from an archived representation: the same reader over another stream.
- Cryptographic hashing, zlib, zstd, the exporter, the publication fence and the storage
  helpers: given as functions or as methods with a stated contract. A removal trusts the
  storage helper to report the bytes it unlinked.
- ArchiveRemoval.Removal.PowerLoss: which entries of a directory a loss of power takes is
  arbitrary, each on its own; so too for what the manifest, one file, says about each item.
  Entries of temporary files are not modelled.
- ArchiveRemoval.Removal.Summary: a damaged or foreign receipt makes the whole summary
  fail; which of the checks failed first is not modelled.
- HtmlText.RenderHtmlText: starts from tag events; Python's HTML parser and its entity
  decoding are not part of this model, and a style attribute is only whether it hides.
- JobStore.JobDatabase.UpsertJob: vacancy snapshots, detail merges, deadline reviews and
  columns other than those of status, hash, closing date and full text are not modelled;
  the job key is given, and an upsert leaves the source of a row as it was.
- JobStore.JobDatabase.EnsureFts: a SQLite without FTS5 has no mirror and is not modelled.
- Source-specific detail checks in the job database, SQL text, schema migration and
  connection handling: tables are maps and transactions are atomic.
- BaselineInventory.Worker.Reconcile: the ledger of import batches and the counts of the
  report are not modelled; metadata is a marker, an attestation and the rest.
- AtomicJsonStore.EveryRun: `read` is a mutation that changes nothing; creating the lock
  file and the directory, and leftover temporary files, are not modelled. A loss of power
  leaves the directory itself, and undoes replacements that were not synced latest first.
- ArchiveMigration.Migration.ExecutePage: producers and protection are checks that abort;
  `protection` itself only gathers paths. A grant is sealed and synced under a new name before
  each installation is recorded, and is durable with it. Items with the same content, which
  share a representation, are modelled as if each had its own.
- ArchiveMigration.Migration.PowerLoss: losses of power that take whole directories.
- PublicationBootstrap.Bootstrap.Step: nothing changes files or databases while a step
  runs, as its caller holds the owner lock; between steps anything may change.
- MonitorWindow.Monitor.Sample: how attempts are discovered and read, and which alerts a
  sample raises, are inputs. Attempts without a start time share one place and are not
  distinct.
- BoundedBody.BoundedResponse: a decompressor takes input until it would have to write beyond
  its output limit, or comes to a malformed place; within one byte of input it writes first.
- Network, browser and proxy code, source adapters, text cleaning, classification, reports,
  the synchronisation harnesses and the Swift plugin: not state machines over data shown
  here, or branch-by-branch claims only.
