# QueryHub browser client, modelled and proved

QueryHub is a web and Slack front door to databases: people ask for access, submit queries,
and admins grant, approve and limit. This project models the decision logic and the
protocols of its browser client (`QueryHubWeb/`), with the server's side added where a
client protocol only makes sense against it. Every module verifies with
`dafny verify dfyconfig.toml`.

| module | what it models |
|---|---|
| `AccessBox` | reach on a connection: a level, a set of databases (or all, those created later included), an end; its joins |
| `AccessEditor`, `AccessDiff` | a subject's access rows merged per connection, and what an edit adds, changes or widens |
| `AccessSave` | the same rows collapsed into concurrent POST and DELETE calls, and the grant store under them |
| `AccessForm` | the rows the editor opens on, Remove and Undo, and when Save is offered |
| `AccessStored` | an offered Save against what the subject held in the store |
| `Expiry`, `AutoReach` | end dates and their limits; what the bulk auto-approve form may write |
| `RolePatch` | a role edit as a partial PATCH, the form around it, and the server's reading of it |
| `MaskExempt` | masking exemptions: audiences, widening, reach, and the multi-write replace |
| `ResultsTools`, `ResultView` | sorting, filtering and summing a result; the cached view that loads its pages |
| `FetchClient` | the single-flight sign-in refresh, with the server's token rotation |
| `ModalHistory`, `HashHistory` | one history entry per dialog; the address of the editor and the admin sections |
| `TabStrip` | tab ids, closing, reopening, the saved workspace |
| `QueueGroups` | the approval queue's batches |
| `Options`, `Seqs`, `Text` | options; filtering, stable sorting and permutations; string order, joins, blanks |

Where the source updates state (the dialogs, the two histories, the API client, the result
hook, the tab strip, the mask form), a class has methods proved equal to a step function,
and the results are about every run of that function. Loops are methods proved equal to a
specification function. Instants are whole milliseconds; one operation sees one clock
reading and one fixed zone offset.

## What the code does, where it differs from what it promises

Each of these is a lemma: a concrete input for which the promise fails, the exact condition
under which it holds, or both.

- A database name with a comma can hide a widening from the change line (`CommaHidesWidening`).
- Two rows that the server sent for one connection can hide a widening (`DuplicateRowsHideWidening`):
  the flag judges the merged reach. No edit hides one exactly when, on every connection the editor
  opened with, each merged database is held at the top by one row (`FlagSoundIff`); one row for each
  connection is enough (`OfferedSaveWidensIff`). The flag compares with the opened rows, not with the store.
- The editor opens a stored end as its day, and Save writes every listed row again, until 23:59:59. So a
  Save shown as the mere removal of one connection can give the subject up to a day more on another
  (`RemovalExtendsAccess`). With one grant for each connection, at least two of them, and names free of
  the separators, no Save hides such a gain exactly when every stored end is none, in the last second of its day, or of a day gone by
  (`NoHiddenGainIff`); where every end is none or 23:59:59 itself, the flag is right about the store
  (`FlagIsStoreGain`).
- A row whose end date is missing is shown as ended and would be sent as never ending
  (`RowShownAsSent`); Save is off for it.
- A page that the server answers with nothing ends the load early, and the short list is kept
  as the whole one (`LoadIsWhole`).
- A column that mixes date-shaped and other text can make the comparator cyclic (`MixedDatesCanCycle`). It
  is transitive under every collation exactly when the column has no other text, or its date-shaped cells
  all have one text (`TransitiveIff`); the results about sorting are for such columns.
- A refresh answer lost on the way back leaves the page with a spent token, which the next 401
  presents (`LostAnswerReplays`); the server takes that for theft exactly once its grace is over.
- A page reloaded with a dialog open stands on that dialog's mark while the count of ids starts again: the
  next dialog gets the same id, and one Back leaves it open (`ReloadedPageKeepsDialog`, exactly when:
  `OneBackClosesIff`; for runs: `DialogsLeaveNoTrace`).
- Forward over an open dialog, and a dialog opened before the last one's Back was carried out,
  close the wrong dialog (`ForwardAfterEscape`, `SwapClosesTheNewDialog`).
- A bell item for a section the user may not open costs two history entries when another section
  than the queue is on screen (`BellCost`), and so does any followed address that the panel would
  write otherwise and that leads to another section; one that leads to none, or to the one on screen,
  stays in the address bar unshown (`FollowCost`). The branch that replaces an unhonoured deep link when
  the app itself loads is never taken: the first view is read from the same address.
- "Close others" and "close to the right" on a tab that is gone empty the strip, or put a missing
  tab in front (`CloseKeepsInvIff`).
- A role form opened and not touched shows "Ends" as changed when the stored end and the last
  second of its local day are on different UTC days (`UntouchedEndShown`), and drops an admin row's
  ceiling (`UntouchedIsCleanIff`).
- The role form offers Importer, which the server refuses (`ImporterRefused`): an unblocked form is
  taken exactly when the role is another one (`SaveWritesTheForm`).
- The role form's widening warning does not see a scope, or the role, moved sideways: a granter made
  an approver is no widening to it (`RoleMoveNotWarned`). It does warn of a schema ceiling lifted, by
  which the row's sentence covers nothing more (`WidensOrSideways`), and which makes an admin a
  super-admin (`UntouchedAdminLosesCeiling`); and of a granter's scope, which the server does not
  read (`WidensAtServer`).
- A replace of a masking exemption with a field its scope does not use left filled in is taken as
  new (`SameReachExact`).
- Someone who reads every database of a connection and writes one is offered, and the form writes, a rule
  to write in any other (`WritesAboveHeld`), because the form takes the connection's highest level for what
  is held on a database without an entry of its own. It writes no more than is held exactly when, on every
  connection reached as a whole, the entry for every database gives the highest level there, or write
  (`NeverMoreThanHeldIff`). The other way about, an entry of a database's own that is lower than the
  one for every database hides it: the form offers less than is held (`OffersBelowHeld`, `OffersHeldIff`).
- A connection id that extends another by a `/` can make two different targets look like one
  (`SlashConfusesTargets`), and only that can (`DupeExactIff`).
- A reload starts the count of tab ids again above the tabs that are open, so the id of a closed tab
  can come back (`ReloadForgets`).

## Model

| member | source | states |
|---|---|---|
| AccessBox.BoxLeIsReach | QueryHubWeb/qh-admin-access.jsx:420-422 | the field-by-field "wider" test is inclusion of reach over every database, level and instant |
| AccessBox.JoinAllLeast | QueryHubWeb/qh-admin-access.jsx:390-411 | a merge is the least product of level, databases and end that contains every row |
| AccessBox.JoinAllSet | QueryHubWeb/qh-admin-access.jsx:390-411 | a merge depends on the set of rows, not on their order or repetition |
| AccessEditor.AccMerge | QueryHubWeb/qh-admin-access.jsx:399-411 | the loop that updates one entry per connection computes the merge |
| AccessEditor.MergeRowsIsMerge | QueryHubWeb/qh-admin-access.jsx:394-411 | exactly the connections with live rows, each with the join of its rows' reaches and all their texts |
| AccessDiff.WidensMeans | QueryHubWeb/qh-admin-access.jsx:412-426 | for every edit, the flag is raised exactly when reach grew on some connection that is new or whose rows read differently |
| AccessDiff.HiddenGrowthIff | QueryHubWeb/qh-admin-access.jsx:412-426 | growth goes unflagged exactly when some connection grew, and every one that did was there before and reads the same |
| AccessDiff.WidensExact | QueryHubWeb/qh-admin-access.jsx:412-426 | with names free of the separators, the flag is true exactly when some database, level and instant is newly reached |
| AccessDiff.DiffMeans | QueryHubWeb/qh-admin-access.jsx:412-426 | the connections added and removed are those whose rows came and went; with names free of the separators, the ones changed are exactly those on both sides whose live rows differ in level, databases or end |
| AccessDiff.AnyMeans | QueryHubWeb/qh-admin-access.jsx:420-426 | and there is a change exactly when some connection's live rows differ |
| AccessDiff.DiffOrderIrrelevant | QueryHubWeb/qh-admin-access.jsx:399-426 | neither the diff nor the flag depends on the order of the rows |
| AccessDiff.CommaHidesWidening | QueryHubWeb/qh-admin-access.jsx:408-419 | a comma in a database name hides a widening |
| AccessDiff.MergeIsActualIff | QueryHubWeb/qh-admin-access.jsx:390-411 | merged reach is actual reach exactly when each merged database is held at the top by one row |
| AccessDiff.SingleRowActual | QueryHubWeb/qh-admin-access.jsx:390-411 | one row on a connection is its own merge |
| AccessDiff.DuplicateRowsHideWidening | QueryHubWeb/qh-admin-access.jsx:399-426 | two rows on one connection hide a widening of what is held |
| AccessDiff.NotWiderIsSafe | QueryHubWeb/qh-admin-access.jsx:412-426 | where the opened rows attain their merge, an edit not called wider gives nothing new |
| AccessDiff.WidensIsNewlyHeld | QueryHubWeb/qh-admin-access.jsx:412-426 | where the rows before and after do, the flag is raised exactly when some row gives a connection, database, level and instant that none gave |
| AccessDiff.UnattainedHidesWidening | QueryHubWeb/qh-admin-access.jsx:399-426 | where they do not, there is an edit that is not called wider and gives something new |
| AccessDiff.FlagSoundIff | QueryHubWeb/qh-admin-access.jsx:412-426 | the opened rows attain their merge exactly when no edit hides a widening |
| AccessSave.FindClash | QueryHubWeb/qh-admin-data.jsx:473-475 | a clash is reported exactly when two targets name one connection at different levels |
| AccessSave.CollapseLoop | QueryHubWeb/qh-admin-data.jsx:476-489 | the loop over targets computes the collapse, in the order connections are first named |
| AccessSave.CollapseIsJoin | QueryHubWeb/qh-admin-data.jsx:476-489 | one entry per connection named, reaching the join of its targets |
| AccessSave.SetSubjectGrants | QueryHubWeb/qh-admin-data.jsx:471-494 | a clash issues no call; otherwise the calls are those of the collapsed targets |
| AccessSave.PairOutcome | QueryHubWeb/qh-admin-data.jsx:464-470 | what any sequence of calls leaves of one subject and connection |
| AccessSave.SaveOutcome | QueryHubWeb/qh-admin-data.jsx:471-500 | any order, any refusals: a written connection ends at its old rows or exactly its new row, a removed one at a subset, and nothing else moves |
| AccessSave.SaveConfluent | QueryHubWeb/qh-admin-data.jsx:492-500 | the store at the end depends only on which calls were refused, not on the order they ended in |
| AccessSave.SaveComplete | QueryHubWeb/qh-admin-data.jsx:471-500 | with no refusal the subject holds exactly the targets, collapsed, and its untouched rows |
| AccessSave.RowShownAsSent | QueryHubWeb/qh-admin-access.jsx:394-398 | a row is shown and sent with the same reach unless its end date is missing |
| AccessSave.DiffMatchesCalls | QueryHubWeb/qh-admin-access.jsx:390-411 | the merge behind the change line and the collapse behind the calls agree per connection |
| AccessForm.RowsForSubject | QueryHubWeb/qh-admin-access.jsx:541-555 | the loop over held grants computes the rows the editor opens on |
| AccessForm.OpenedRows | QueryHubWeb/qh-admin-access.jsx:536-555 | a connection opens read-only exactly when its levels differ, once, with no editable row beside it; every held connection is shown |
| AccessForm.OpenedNeverClash | QueryHubWeb/qh-admin-access.jsx:536-555 | saving the rows as they opened names no connection at two levels |
| AccessForm.UndoRestores | QueryHubWeb/qh-admin-access.jsx:574-593 | after any Remove, Undo and Add, once nothing is marked or new, the rows are the opened ones and the diff is empty |
| AccessForm.RemoveMeans | QueryHubWeb/qh-admin-access.jsx:574-593 | Remove marks a held row and takes a new one away |
| AccessForm.UndoAndAdd | QueryHubWeb/qh-admin-access.jsx:574-593 | Undo takes the mark off, Add puts one blank row last |
| AccessForm.OpenSaveIsClean | QueryHubWeb/qh-admin-access.jsx:594-613 | an offered Save lists each connection once, none read-only, each with an end from today on, and changes something |
| AccessForm.SaveOfferedIff | QueryHubWeb/qh-admin-access.jsx:594-613 | Save is offered exactly when a subject is picked, every listed row names a connection, once, not read-only, with an end from today on, and some connection's rows differ from the opened ones |
| AccessForm.WhyIsTrue | QueryHubWeb/qh-admin-access.jsx:594-613 | the reason given for not saving is a true one |
| AccessForm.OpenSaveSendsRows | QueryHubWeb/qh-admin-access.jsx:614-619 | in an offered Save the targets collapse, for each listed row, to exactly the reach the row shows |
| AccessForm.OfferedSaveHolds | QueryHubWeb/qh-admin-access.jsx:608-619 | an offered Save clashes nowhere, and with no refusal leaves the subject one row of the reach shown on each listed connection, what it held on each read-only one, and nothing else |
| AccessForm.OfferedSaveWidensIff | QueryHubWeb/qh-admin-access.jsx:608-623 | opened with one row for each connection, an offered Save is called a widening exactly when its rows give something that the opened rows did not |
| AccessForm.OpenedOneEach | QueryHubWeb/qh-admin-access.jsx:541-555 | one grant for each connection opens one row for each |
| AccessStored.StoredIsShown | QueryHubWeb/qh-admin-access.jsx:608-619 | after an offered Save without refusals, whatever the order of its calls, the store gives on each connection what the listed row shows, on a read-only one what it gave before, and nothing anywhere else |
| AccessStored.UnflaggedSaveIsSafe | QueryHubWeb/qh-admin-access.jsx:608-623 | with one grant for each connection and names free of the separators: if every stored end is none, in the last second of its day, or of a day gone by, such a Save gives the subject nothing it did not hold unless it is called a widening |
| AccessStored.FlagIsStoreGain | QueryHubWeb/qh-admin-access.jsx:412-426 | under the same terms, if every stored end is none or the last second of its day, it is called a widening exactly when the subject then holds something new |
| AccessStored.EarlyEndGains | QueryHubWeb/qh-admin-access.jsx:66-86 | a stored end earlier in a day still to come, and a second connection to remove: the Save is offered and not called a widening, and the subject then holds all that grant gave until the last second of the day |
| AccessStored.NoHiddenGainIff | QueryHubWeb/qh-admin-access.jsx:541-619 | with one grant for each connection, at least two, and names free of the separators, no offered Save hides a gain exactly when every stored end is none, in the last second of its day, or of a day gone by |
| AccessStored.RemovalExtendsAccess | QueryHubWeb/qh-admin-data.jsx:471-494 | a Save shown as the removal of one connection that extends access to another from noon to 23:59:59 |
| Expiry.AcceptedEndBounds | QueryHubWeb/qh-admin-access.jsx:101-114 | an accepted end is a real one within the limit; a picked one leaves a minute of room and is not a second gone |
| Expiry.RuleEndTakenIff | QueryHubWeb/qh-admin-access.jsx:101-114 | exactly when an end is taken for a rule: a kept one within the limit, a day that starts within it and is not gone by, a count of days up to it |
| Expiry.RuleWhyIsTrue | QueryHubWeb/qh-admin-access.jsx:101-114 | the reason for refusing one is a true one |
| Expiry.EndLands | QueryHubWeb/qh-admin-access.jsx:72-82 | a day lands on its last second, a count of days on the later of now and the end it extends, and under a limit neither later than a minute before it |
| Expiry.ExtendNeverShortens | QueryHubWeb/qh-admin-access.jsx:67-82 | extending moves an end later, and to at least the days it says from now |
| Expiry.DayRoundTrip | QueryHubWeb/qh-admin-access.jsx:66-86 | a picked day reads back as that day |
| Expiry.ClampedDayRoundTrip | QueryHubWeb/qh-admin-access.jsx:76-86 | under a limit it does, except the last offered day picked in the first minute of the local day |
| Expiry.EndRoundTrip | QueryHubWeb/qh-admin-access.jsx:66-86 | a stored end opened and saved keeps its day, never moves a second earlier, and then stays put |
| Expiry.OfferedEndsAccepted | QueryHubWeb/qh-admin-access.jsx:97-119 | every end a rule's form opens on or offers is accepted |
| AutoReach.QhAutoReach | QueryHubWeb/qh-admin-access.jsx:1457-1474 | the nested loops compute the reach as read off the rows: per connection and database the highest level given |
| AutoReach.OrderIrrelevant | QueryHubWeb/qh-admin-access.jsx:1457-1474 | neither order nor repetition of access rows matters |
| AutoReach.NeverAboveCap | QueryHubWeb/qh-admin-access.jsx:1520-1530 | the level written is read or write, at most what the form takes for held at any target, and write exactly when more than read is picked and every target bears it |
| AutoReach.CapsHeldIff | src/queryhub/web/routes_admin.py:4265-4280 | what the form takes for held is held at every target exactly when, on every connection reached as a whole, the entry for every database is as high as any other |
| AutoReach.NeverMoreThanHeldIff | QueryHubWeb/qh-admin-access.jsx:1520-1530 | the level written is held at every target exactly when, on every connection reached as a whole, the entry for every database gives the highest level there, or write |
| AutoReach.WritesAboveHeld | src/queryhub/web/routes_admin.py:4141-4161 | a team that reads every database and writes one is given write in another |
| AutoReach.CapReads | QueryHubWeb/qh-admin-access.jsx:1515-1520 | what the form takes for held at a target, read off the access rows |
| AutoReach.OffersHeldIff | src/queryhub/web/routes_admin.py:4265-4280 | all that is held is offered exactly when, on every connection, the entry for every database is no higher than the rows' own level, nor than the entries of a database that has some |
| AutoReach.OffersBelowHeld | QueryHubWeb/qh-admin-access.jsx:1515-1520 | a team offered to read where it may write |
| AutoReach.UnblockedIsSound | QueryHubWeb/qh-admin-access.jsx:1536-1544 | a form that can be saved has distinct targets, none already held, a level the form takes for held at each, and really held where the entries for every database are high enough, and an end within the limit |
| AutoReach.RuleOpenIff | QueryHubWeb/qh-admin-access.jsx:1536-1544 | where no connection id extends another by a slash: Save is open exactly when there is a subject, its reach is loaded, the targets are some, different and not held, the end is one a rule may have, and nothing is being saved |
| AutoReach.DupeExactIff | QueryHubWeb/qh-admin-access.jsx:1540-1541 | over a set of connections, a row is marked a duplicate exactly when an earlier one names the same target, if and only if no id extends another by a slash |
| AutoReach.SlashConfusesTargets | QueryHubWeb/qh-admin-access.jsx:1540-1541 | two targets on such a pair of ids, taken for one |
| RolePatch.UpdateRole | QueryHubWeb/qh-admin-data.jsx:377-386 | filling the body field by field gives the patch |
| RolePatch.PatchInvertsApplyIff | src/queryhub/web/routes_admin.py:5169-5197 | the server takes an edit and holds the edited row exactly when that row passes its rules and is not a new admin row meant to keep its ceiling |
| RolePatch.UneditedKept | QueryHubWeb/qh-admin-data.jsx:371-386 | what was not edited is kept to the letter, the end's moment included, whatever the server answers |
| RolePatch.RolChanges | QueryHubWeb/qh-admin-roles.jsx:148-161 | the list of changes, appended to, is that of the specification |
| RolePatch.ShownIsSent | QueryHubWeb/qh-admin-roles.jsx:148-161 | the changes shown are exactly the fields sent; nothing shown is nothing sent |
| RolePatch.WidensOrSideways | QueryHubWeb/qh-admin-roles.jsx:154-160 | for every edit, the row in force says more than before exactly when the server took it and the form warned of more than a lifted schema ceiling, or the role or a scope moved sideways |
| RolePatch.WidensAtServer | src/queryhub/grants.py:119-153 | for every edit of a stored row, the server lets its holder do something new exactly when it took it and the form warned of a field that is read, or the role or an approver's scope moved sideways |
| RolePatch.RoleMoveNotWarned | QueryHubWeb/qh-admin-roles.jsx:154 | a granter made an approver without a warning |
| RolePatch.SaveWritesTheForm | QueryHubWeb/qh-admin-roles.jsx:178-213 | Save is offered exactly when something is sent; the server takes what an unblocked form sends exactly when the role is not importer, and then holds the form's row |
| RolePatch.SaveOfferedIff | QueryHubWeb/qh-admin-roles.jsx:164-213 | Save is offered exactly when a person is named, the end is from today on, an approver has a ceiling of read or write, and some field reads otherwise than stored |
| RolePatch.FormRow | QueryHubWeb/qh-admin-roles.jsx:179-180 | the row a form stands for: an admin without scope, a ceiling on an approver alone, an end that lasts as long as the pick says |
| RolePatch.ImporterRefused | QueryHubWeb/qh-admin-roles.jsx:28-34 | a form that can be saved and that the server refuses |
| RolePatch.UntouchedAdminLosesCeiling | src/queryhub/access.py:131-148 | an admin row with a schema ceiling, saved untouched: the sentence covers nothing more, and the holder becomes a super-admin |
| RolePatch.UntouchedIsCleanIff | QueryHubWeb/qh-admin-roles.jsx:164-181 | for every row, exactly when an untouched form shows no change |
| RolePatch.UntouchedEndShown | QueryHubWeb/qh-admin-roles.jsx:159 | an untouched form that shows its end as changed |
| MaskExempt.AudCoversExact | QueryHubWeb/qh-admin-mask.jsx:84-109 | one audience holds another in every organisation exactly when the key test says so |
| MaskExempt.MxWidens | QueryHubWeb/qh-admin-mask.jsx:130-138 | the words appended are those of the specification |
| MaskExempt.WidensExact | QueryHubWeb/qh-admin-mask.jsx:128-138 | no widening is listed exactly when, in every organisation, no read is newly exposed from any given instant on |
| MaskExempt.WordsMean | QueryHubWeb/qh-admin-mask.jsx:128-138 | each word stands in the list exactly when it is so: more people in some organisation, a later end of a row that ended, that still runs, or no end any more |
| MaskExempt.SameReachExact | QueryHubWeb/qh-admin-mask.jsx:592-597 | a replace counts as an edit of the original exactly when both cover the same spots and no unused field is filled |
| MaskExempt.MaskForm.Save | QueryHubWeb/qh-admin-mask.jsx:621-651 | the chain of writes makes the specified writes, in order, and says what the specification says |
| MaskExempt.ReplaceAtEveryPoint | QueryHubWeb/qh-admin-mask.jsx:634-647 | at every moment the rows written are for the first columns picked, in order, at the form's place, with its settings and an end that lasts as long as the pick says; the original is off only after all of them |
| MaskExempt.NewRowsCover | QueryHubWeb/qh-admin-mask.jsx:634-640 | once all are written they cover exactly the spots of the form's target |
| MaskExempt.ReplaceTellsTruth | QueryHubWeb/qh-admin-mask.jsx:634-650 | for every scope, nothing is said exactly when the server takes every write, and the count and the column named are those of what was written |
| MaskExempt.ReplaceNeverOverlaps | QueryHubWeb/qh-admin-mask.jsx:598-607 | a replace beside the original in its table never writes over what it covers |
| MaskExempt.SameReachPatches | QueryHubWeb/qh-admin-mask.jsx:625-634 | a same-reach save makes one write on the original: the form's settings, and the stored end to the millisecond unless the picker was moved |
| MaskExempt.EditsOriginalIff | QueryHubWeb/qh-admin-mask.jsx:592-597 | saving is such an edit exactly when the form covers the original's spots and leaves no unused field filled |
| MaskExempt.WarningExact | QueryHubWeb/qh-admin-mask.jsx:613-615 | the form then warns of nothing exactly when what it writes exposes nothing new from any given instant on |
| MaskExempt.SaveOpenIff | QueryHubWeb/qh-admin-mask.jsx:583-612 | exactly when Save is open |
| MaskExempt.WhyIsTrue | QueryHubWeb/qh-admin-mask.jsx:583-612 | the reason given for not saving is a true one |
| ResultsTools.EngineSortIsSortRows | QueryHubWeb/qh-results-tools.jsx:39-56 | whatever sorts by the comparator with its index tie-break yields the one stable sort |
| ResultsTools.StableSortIsEngineSorted | QueryHubWeb/qh-results-tools.jsx:39-56 | and there is such an arrangement |
| ResultsTools.MixedDatesCanCycle | QueryHubWeb/qh-results-tools.jsx:24-36 | any two different date-shaped texts and any other text make the comparator cyclic under some collation |
| ResultsTools.TransitiveIff | QueryHubWeb/qh-results-tools.jsx:24-36 | over any cells, the comparator is transitive under every collation exactly when none is other text or all date-shaped ones have one text |
| ResultsTools.SortRowsPermutes | QueryHubWeb/qh-results-tools.jsx:39-56 | sorting is a permutation |
| ResultsTools.SortRowsOrdered | QueryHubWeb/qh-results-tools.jsx:38-56 | sorted by the comparator, empty cells last in both directions |
| ResultsTools.SortRowsAscend | QueryHubWeb/qh-results-tools.jsx:24-56 | read off the cells: numbers before text and rising, dates by their texts, other text by the collation, the whole turned round when descending, empty cells last |
| Text.StrLeIs | QueryHubWeb/qh-results-tools.jsx:33 | date texts are compared by their first differing character |
| ResultsTools.SortRowsIdempotent | QueryHubWeb/qh-results-tools.jsx:39-56 | sorting twice is sorting once |
| ResultsTools.SortRowsFilterCommute | QueryHubWeb/qh-results-tools.jsx:39-78 | any filter commutes with the sort, the unknown-column return included |
| ResultsTools.FilterThenSort | QueryHubWeb/qh-results-tools.jsx:63-78 | filtering by a typed query, then sorting, is sorting, then filtering |
| ResultsTools.FilterOneColumn | QueryHubWeb/qh-results-tools.jsx:66-75 | `name:text` keeps exactly the rows whose cell in the first column of that name has the text somewhere in it, letter case aside |
| ResultsTools.FilterAnyColumn | QueryHubWeb/qh-results-tools.jsx:63-78 | any other query keeps exactly the rows of which some cell has it |
| ResultsTools.QhResAggregate | QueryHubWeb/qh-results-tools.jsx:80-98 | the one-pass loop computes count, sum, mean and extremes |
| ResultsTools.AggregateAppend | QueryHubWeb/qh-results-tools.jsx:80-98 | aggregates of two parts combine to that of the whole |
| ResultsTools.AggregateOne | QueryHubWeb/qh-results-tools.jsx:80-98 | what one cell adds: nothing, a count, or a count and its number |
| ResultsTools.AggregateBounds | QueryHubWeb/qh-results-tools.jsx:80-98 | n times the least is at most the sum is at most n times the greatest, and the mean lies between |
| ResultsTools.SortKeepsAggregates | QueryHubWeb/qh-results-tools.jsx:39-98 | sorting leaves every column's aggregate as it was |
| ResultView.LoadRows | QueryHubWeb/qh-results-tools.jsx:139-146 | the loading loop ends and computes the load |
| ResultView.LoadIsPrefix | QueryHubWeb/qh-results-tools.jsx:139-146 | a load is a prefix of the server's table and stops short only at an empty window |
| ResultView.LoadIsWhole | QueryHubWeb/qh-results-tools.jsx:139-146 | with no empty window the load is the table; otherwise it ends at one and is kept |
| ResultView.LoadIsLegal | QueryHubWeb/qh-results-tools.jsx:133-156 | such a load is one that the view's runs are about |
| ResultView.ViewRefinesTable | QueryHubWeb/qh-results-tools.jsx:112-173 | on every run, a ready view of a whole table of at most 5000 rows shows the windows of it, filtered and sorted by this result's own settings; any other is left to the server |
| ResultView.WindowIs | QueryHubWeb/qh-results-tools.jsx:165-173 | a window is the rows from its offset on, as many as asked for |
| ResultView.SettingsStayWithResult | QueryHubWeb/qh-results-tools.jsx:118-131 | sort, filter and loaded rows of one result never show under another |
| ResultView.ToggleCycles | QueryHubWeb/qh-results-tools.jsx:183-194 | a column goes ascending, descending, unsorted; another column starts over; the filter stays |
| ResultView.SettingsSet | QueryHubWeb/qh-results-tools.jsx:112-131 | a sort or a filter is set and leaves the other, on a table alone |
| ResultView.SettleEnds | QueryHubWeb/qh-results-tools.jsx:133-156 | a load ends once, for the result it was started for, and changes no setting |
| ResultView.ResultViewHook.Toggle | QueryHubWeb/qh-results-tools.jsx:183-194 | a click on a column is one step of the view |
| FetchClient.ApiClient.OnReply | QueryHubWeb/qh-api.jsx:25-43 | the first 401 starts the one refresh or joins it |
| FetchClient.ApiClient.OnRefreshSettled | QueryHubWeb/qh-api.jsx:37-50 | the refresh ends for all that waited: a second send, or an error |
| FetchClient.SingleFlight | QueryHubWeb/qh-api.jsx:9-50 | in every interleaving: never two refreshes on the wire, waiting only while one is, at most two sends, and the current token presented exactly when no answer was lost |
| FetchClient.NoLossNoReplay | QueryHubWeb/qh-api.jsx:9-16 | with no refresh lost, a spent token is never presented |
| FetchClient.ReuseOnlyAfterLoss | src/queryhub/web/sessions.py:196-270 | the server sees a replay exactly after a loss and beyond its grace |
| FetchClient.RefreshAnswered | src/queryhub/web/sessions.py:196-270 | on every run, a refresh is granted exactly when the session lives, the account check passes, and its token is current or within its grace; a refused one leaves no session |
| FetchClient.LostAnswerReplays | QueryHubWeb/qh-api.jsx:34-43 | a run that loses an answer and presents the spent token |
| FetchClient.CallsEnd | QueryHubWeb/qh-api.jsx:25-50 | no run is stuck: while a call has not ended, something can happen |
| FetchClient.CallOutcome | QueryHubWeb/qh-api.jsx:25-72 | on every run, a call has ended well exactly when a good answer came for it, and badly exactly when another answer ended it (a 401 only for a sign-in path or a second send) or the refresh it awaited was refused or lost |
| FetchClient.RunsAreBounded | QueryHubWeb/qh-api.jsx:25-50 | and no run goes on for ever without a new call, so every call ends |
| ModalHistory.Page.OpenDialog | QueryHubWeb/qh-modal.jsx:97-104 | opening pushes the stack and a sentinel at the same address |
| ModalHistory.Page.OnPopState | QueryHubWeb/qh-modal.jsx:105-117 | only the topmost dialog answers a Back; a refused close takes its sentinel back |
| ModalHistory.StepKeepsInv | QueryHubWeb/qh-modal.jsx:97-126 | above the page stand exactly the open dialogs' sentinels, in stack order, at the page's address |
| ModalHistory.TopAnswers | QueryHubWeb/qh-modal.jsx:105-124 | Back closes only the top dialog, refused it changes nothing, and Escape gives its entry back |
| ModalHistory.DialogsLeaveNoTrace | QueryHubWeb/qh-modal.jsx:80-126 | on a quiet page, every mix of opening, Back and Escape leaves the address and the entries below as they were, and the cursor one above for each open dialog, exactly when the page's own entry is not marked with an id still to be given out |
| ModalHistory.OneBackClosesIff | QueryHubWeb/qh-modal.jsx:97-117 | one Back closes the only dialog exactly when the page's entry is not marked with that dialog's id |
| ModalHistory.CloseAsksBack | QueryHubWeb/qh-modal.jsx:118-124 | closing any dialog asks for one more back exactly when the current entry is its own |
| ModalHistory.ReloadedPageKeepsDialog | QueryHubWeb/qh-modal.jsx:28 | a page reloaded with a dialog open, whose next dialog one Back leaves open |
| ModalHistory.CloseKeepsInvIff | QueryHubWeb/qh-modal.jsx:118-124 | closing keeps this exactly for the innermost dialog |
| ModalHistory.ForwardKeepsInvIff | QueryHubWeb/qh-modal.jsx:105-117 | Forward keeps it exactly when there is nothing forward |
| ModalHistory.ForwardAfterEscape | QueryHubWeb/qh-modal.jsx:105-124 | a run in which Forward closes the outer dialog |
| ModalHistory.SwapClosesTheNewDialog | QueryHubWeb/qh-modal.jsx:105-124 | a dialog opened before the last one's Back is carried out is closed by it |
| HashHistory.Navigator.RunSectionEffect | QueryHubWeb/qh-admin.jsx:135-149 | the panel's effect: replace an admin address on the first pass, push otherwise |
| HashHistory.Navigator.RunViewEffect | QueryHubWeb/qh-app.jsx:297-309 | the app's effect on a change of view |
| HashHistory.Navigator.OpenSubject | QueryHubWeb/qh-app.jsx:1513-1517 | a bell item is one step of the model |
| HashHistory.LoadOnlyReplaces | QueryHubWeb/qh-admin.jsx:131-149 | loading on any address, in either effect order, adds no entry, and screen and address then agree |
| HashHistory.OneEntryPerMove | QueryHubWeb/qh-app.jsx:288-309 | a move to another address adds exactly that one entry |
| HashHistory.ScreenMatchesAddress | QueryHubWeb/qh-admin.jsx:122-154 | on every run, whatever is followed and whatever the history held: the panel is on screen exactly at an admin address, on a section the user may open, and the screen shows what the address asks for exactly when that is one the user may open, written as the panel writes it |
| HashHistory.BackUndoesMoves | QueryHubWeb/qh-admin.jsx:127-134 | as many Backs as moves show the same place again and write nothing |
| HashHistory.ForwardRedoes | QueryHubWeb/qh-admin.jsx:133-154 | Forward after Back is where the move led |
| HashHistory.EffectOrderIrrelevant | QueryHubWeb/qh-admin.jsx:140-146 | entering costs one entry with the child's effect before the parent's or after it |
| HashHistory.ListenerOrderIrrelevant | QueryHubWeb/qh-admin.jsx:150-154 | the two address listeners may run in either order |
| HashHistory.BellCost | QueryHubWeb/qh-app.jsx:1510-1517 | what a bell item costs, whatever section it names |
| HashHistory.FollowCost | QueryHubWeb/qh-admin.jsx:64-69 | what following any address costs, and when screen and address part |
| TabStrip.LoadWorkspace | QueryHubWeb/qh-app.jsx:41-53 | the load with its running maximum computes the loaded strip |
| TabStrip.Strip.CloseTabs | QueryHubWeb/qh-app.jsx:865-900 | a close is one step: the stack grows, the victims go, the focus moves |
| TabStrip.CloseRemovesVictims | QueryHubWeb/qh-app.jsx:865-890 | each close removes exactly its victims, in order; an empty strip becomes one Welcome tab |
| TabStrip.WhoCloses | QueryHubWeb/qh-app.jsx:885-890 | which tabs each close takes, place by place |
| TabStrip.CloseKeepsFocus | QueryHubWeb/qh-app.jsx:865-881 | the tab in front stays unless closed; a single closed one hands over to its neighbour |
| TabStrip.CloseMovesFocus | QueryHubWeb/qh-app.jsx:874-881 | when the tab in front is closed by another close, the tab asked on comes to the front, or Welcome |
| TabStrip.CloseOnGone | QueryHubWeb/qh-app.jsx:865-890 | what each close does when the tab it is asked on is gone |
| TabStrip.CloseKeepsInvIff | QueryHubWeb/qh-app.jsx:865-881 | closing keeps the strip sound exactly when the tab it was asked on is there |
| TabStrip.MoveToMoves | QueryHubWeb/qh-app.jsx:926-930 | a drag keeps every tab and the order of the others |
| TabStrip.ReorderMoves | QueryHubWeb/qh-app.jsx:926-930 | a drag is that move between the two tabs named; a tab that is gone moves nothing |
| TabStrip.StripSafe | QueryHubWeb/qh-app.jsx:22-53 | on every run, reloads included: tabs, distinct ids below the next, a tab in front, at most thirty snapshots |
| TabStrip.IdsNeverComeBack | QueryHubWeb/qh-app.jsx:22-26 | while the page stays loaded, an id once closed is never given out again |
| TabStrip.ReloadForgets | QueryHubWeb/qh-app.jsx:45-51 | after a reload it can come back exactly when it is not below the new count, or an empty strip's first query tab has it |
| TabStrip.ReopenRestores | QueryHubWeb/qh-app.jsx:415-424 | reopening pops the snapshots, the last first, into new tabs that hold their name, text and connection, unsaved, the last one in front |
| TabStrip.CloseThenReopen | QueryHubWeb/qh-app.jsx:891-900 | closing and reopening brings back the name, text and connection of every closed tab that was not blank, up to thirty |
| TabStrip.NewOpens | QueryHubWeb/qh-app.jsx:853-861 | a new tab goes last and in front, with the next id and what it was opened on |
| TabStrip.RestoreOpens | QueryHubWeb/qh-app.jsx:951-955 | a saved session opens in order, with its content, the first in front |
| TabStrip.DuplicateCopies | QueryHubWeb/qh-app.jsx:961-967 | a duplicate stands just after its tab, in front, with its content |
| TabStrip.CopyNames | QueryHubWeb/qh-app.jsx:964 | a name that ends in the word `copy` stays, any other gets it |
| TabStrip.EditChanges | QueryHubWeb/qh-app.jsx:733 | an edit changes the one tab it is made in and marks it unsaved |
| TabStrip.SelectAndPages | QueryHubWeb/qh-app.jsx:375 | selecting a tab or opening a page changes no tab's content |
| TabStrip.LoadIsSoundIff | QueryHubWeb/qh-app.jsx:41-53 | whatever was saved and whenever it is loaded, the strip is sound exactly when the tabs not too old have distinct ids and the reopen stack is one the app leaves |
| TabStrip.LoadIsSound | QueryHubWeb/qh-app.jsx:230-243 | a workspace that the app saved loads into a sound strip with a Welcome tab |
| TabStrip.LoadKeepsRecent | QueryHubWeb/qh-app.jsx:40-53 | a load brings back, with their content, exactly the tabs touched less than thirty days ago or never stamped |
| TabStrip.LoadWithNothing | QueryHubWeb/qh-app.jsx:230-243 | with none, Welcome and one empty query |
| TabStrip.ReloadRestores | QueryHubWeb/qh-app.jsx:428-436 | a reload in time brings back every tab, in order, and the one in front |
| QueueGroups.BuildGroups | QueryHubWeb/qh-admin.jsx:410-421 | the loop over the queue computes the groups |
| QueueGroups.GroupsLoseNothing | QueryHubWeb/qh-admin.jsx:453 | the flattened groups are a permutation of the shown requests |
| QueueGroups.RowsStable | QueryHubWeb/qh-admin.jsx:416-417 | a batch rises by position, a missing one counted as 0, and queue order breaks ties |
| QueueGroups.GroupsKeepQueueOrder | QueryHubWeb/qh-admin.jsx:405-421 | groups stand in queue order by their first row, each batch once, whole, and as long as that row says |

## Left out

- Rendering, focus and keyboard, labels and toasts, styling.
- I/O itself: `fetch`, storage, timers and listeners appear as steps with any outcome. The redirect
  of a person the server refuses (403 on refresh) is not part of the model.
- `localeCompare`, `trim`, `toLowerCase`, the number and date patterns are parameters or cell kinds;
  `Text.Trim` and `Text.Blank` know four blanks. Numbers are exact, so no overflow, rounding or NaN.
- Daylight-saving changes: one operation has one zone offset. Days compared as ISO text are day numbers.
- Plain objects used as maps are maps: ids such as `constructor` that every object inherits are not
  part of the model. Levels other than RO, RW and DDL are not either.
- Saving access: the list the plan is made from is the store the calls meet; another admin's write in
  between is not part of the model. A DELETE takes the rows of its id, and an id names one subject and
  connection.
- The sort of a browser is any rearrangement ordered by the comparator, not an algorithm.
- `ExpIso` is never called with the pick "keep", which only a rule's form has and handles apart.
- `popstate`, the close it asks for and the timer after it are one step of `ModalHistory`; a timer that
  fires after a further event is not part of the model.
- `HashHistory`: the user's level does not change during a run, and entries of other sites before the
  load are not told apart.
- `TabStrip`: a tab's kind is its id, and its result, status and request number are left out.
- `RolePatch`: ids are texts, so a numeric id picked again from the list reads as unchanged. Creating
  and replacing a role are left out. Of the server's refusals only the rules on the row itself are
  modelled: not the 404 for a row, a team or a connection that is gone, nor the 409 for a mirrored or
  synced row, nor the 409 for a second live row over the same scope (`routes_admin.py:5418-5430`).
  What a role lets its holder do is read from its own row: not the other rows of the same person, and
  not the older access model.
- `AutoReach` models what is written, not the lists offered or the refusals the server returns.
- Query tracking, the audit, metrics, login, home and feedback screens, schema pickers, downloads,
  notifications and theming, and the server beyond the places cited above.
