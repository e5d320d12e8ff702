# Content, publishing and ownership: a verified model

A Dafny model of the central content server: how an organisation's content is cut into publications and put together
again, how publications are written and served, how pushes to the learner server take turns, how a content file is
imported, how the points of levels and grades are kept, and whose a row is. `dafny verify dfyconfig.toml` checks it.

## What is modelled

- `Values` - rows as a JavaScript object holds them, JSON values, ids compared without regard to case.
- `Content`, `ConfineLaws`, `ConfineAnswers` - the content tables, their references, and `confine`: the loop, its
  specification, why one pass gives the greatest closed part, and what is answered row by row.
- `Selection`, `SelectionLaws`, `PayloadLaws` - one curriculum cut out of an organisation's tables, downwards and upwards,
  and when it makes a payload.
- `Merge`, `MergeLaws`, `MergeOrder`, `PublishAll` - an organisation rebuilt from the newest publications; determinism,
  closure, and the promise of the initial run: publish everything, merge, and nothing has changed.
- `Canonical` - canonical values, row and payload hashes, and the diff a summary counts.
- `Publications`, `PublicationLaws`, `Serving` - the stored publications as a state machine. A transaction under the
  curriculum's row lock is one step; the reads before it are earlier steps of the same session. Every interleaving of
  edits, publishes, retires, deletes and initial runs is a run.
- `PushLanes` - the lanes of the pushes: acts commit, ask, pushes start, read (as often as they like) and end, waiters are
  served and answered, all interleaved.
- `ImportSlots`, `ImportContent`, `ImportPlan`, `ImportSteps`, `ImportRun`, `ImportRows`, `ImportLaws`, `ImportSequence`,
  `ImportPoints` - the DCRS content import: ids, the check of a file, the plan against what is stored, the steps on rows,
  the run, and what holds of one run and of every sequence of runs.
- `ImportFile`, `ImportValid`, `ImportChecks`, `ImportTexts`, `ImportWrites`, `ImportHides`, `ImportCounts` - the same run
  told by the file alone: which files and runs are accepted, and what every row, text and count is afterwards.
- `Points`, `PointsLaws`, `PointsMoves`, `LessonPoints` - the stored points of levels and grades under every operation that
  changes them, what each operation writes, leaves and moves, and a lesson's points spread over its items.
- `LogImport`, `LogLaws` - the check of a teacher's log upload and the upserts it lets through.
- `Scope` - the owner walk, the ids a list is limited to, and the batched owner maps.
- `Sums` - sums over finite maps.

Where the code changes state step by step the model is a class or a method with loops, proved equal to a function of the
old state; the theorems are about that function. SHA-256 is a constructor over the value it is taken of, a version-5 UUID
(section 4.3 of RFC 4122) a constructor over its role path, so that different inputs give different results.
`localeCompare` is a function from names to real numbers: any total preorder of names.

## Where the code does less than it says

- A publish, retire or delete never leaves a deleted curriculum published, but the initial run can: it does not look at
  the deletion again under its lock (`Serving.InitialRunCanPublishADeletedCurriculum`; the exact condition is
  `Serving.InitialWriteKeepsDeletionExactly`). Such a curriculum is still not served.
- A lesson's points are spread over every row of its items but counted over those not soft-deleted: each soft-deleted row
  adds one share (`LessonPoints.ItemsHoldTheTotalExactly`). The routes here remove an item's row altogether; a soft-deleted
  one comes from outside this code.
- The import's points are to follow central's own rule. They miss lessons that a person put in the module's level, count
  the file's lessons that a person moved out of it, and miss the quiz points of a level that a person moved to another
  grade (`ImportPoints.LevelPointsAreOffBy`, exactly). A moved level that is on is also counted towards the programme's
  grade, where it no longer is (`ImportPoints.GradePointsAreTheSum`, exactly; `ImportPoints.MovedLevelIsMiscounted`).
- The seed reads and plans, then runs its own pass, then applies the plan. A fixed lesson named with a set left empty, on
  a database without it, is then written by that pass with a pass mark of 80 it cannot reach
  (`ImportSequence.SeedRunLeavesOutOfReach`, exactly). The fixpoint is proved of plan and application against one database.
- The lists compare ids as the database does, without regard to case, and `===` does not. The upward walk and the lists
  disagree exactly when something listed has an empty key or an owner listed is written in another case than the
  organisation (`Scope.ListsAgreeWithTheWalk`); the batched owner maps lose an owner exactly when an id on the way up is
  written in another case than the key it finds (`Scope.BatchedOwnersAreTheWalk`).

## Model

| member | source | states |
|---|---|---|
| Content.KeysAreInParentOrder | src/business/organisation-content-export.ts:89-112 | every table's parent comes before it in the key list, which is why one pass is enough |
| Content.Confine | src/business/organisation-content-export.ts:314-394 | the passes of `confine`, in place, compute the specified answer: the closed tables, or every problem |
| Content.ConfineParents | src/business/organisation-content-export.ts:324-337 | the one loop over the keys leaves each table with the rows that hang, step by step, from rows that are there |
| Content.TrimIdLists | src/business/organisation-content-export.ts:273-304 | the list columns are trimmed in place to the entries whose rows are there, whatever the order the tables are trimmed in |
| Content.TrimmingKeepsIds | src/business/organisation-content-export.ts:189-192 | a list column is never a key: trimming changes no row's key |
| ConfineLaws.ConfineKeepsTheGreatestClosedPart | src/business/organisation-content-export.ts:324-337 | one pass computes the greatest parent-closed part of the tables: every closed part is inside it, with rows as often as given |
| ConfineLaws.ConfineRefusesExactlyDanglingNames | src/business/organisation-content-export.ts:363-391 | `confine` refuses exactly when a row that stays names a row that is not there |
| ConfineLaws.ConfinedIsClosedForGood | src/business/organisation-content-export.ts:314-394 | in the answer no parent, reference, translation or list entry dangles, and a second `confine` changes nothing |
| ConfineLaws.ClosedTablesAreKept | src/business/organisation-content-export.ts:324-358 | tables already closed lose nothing to the parent and translation passes |
| ConfineAnswers.RowsStayWithTheirParents | src/business/organisation-content-export.ts:314-358 | a row stays, as often as given, exactly when the row it hangs from stays, or that table was not given; a translation when the row it translates does |
| ConfineAnswers.AnswerIs | src/business/organisation-content-export.ts:339-394 | the answer keeps those rows, in order, with each list column trimmed to the entries that name a row kept and every other column as it was |
| ConfineAnswers.RefusalTells | src/business/organisation-content-export.ts:363-391 | a refusal tells, for every reference that dangles, how many rows that stay dangle there, and nothing else |
| Selection.SelectCurriculumTables | src/business/curriculum-publication.ts:263-320 | the loops over the tables pick exactly the specified selection |
| Selection.SelectionIsClosed | src/business/curriculum-publication.ts:263-320 | whatever the content holds, a selection is parent-closed, so `confine`'s parent pass finds nothing to leave out |
| Selection.DownwardSelectionIsUpwardWalk | src/business/curriculum-publication.ts:263-320 | with unique keys, a row is picked going down from a curriculum exactly when walking up from it leads there |
| SelectionLaws.CurriculumIsTheWanted | src/business/curriculum-publication.ts:263-286 | the curriculum rows picked are those with the id asked for, as often as given |
| SelectionLaws.TreeIsWhatHangs | src/business/curriculum-publication.ts:263-286 | a row of any other table of the tree is picked, as often as given, exactly when the row it hangs from is |
| SelectionLaws.BanksAreWhatIsNamed | src/business/curriculum-publication.ts:287-304 | a question or a document is picked, as often as given, exactly when a picked row of the tree has a reference to its bank with its key |
| SelectionLaws.TranslationsAreOfSelected | src/business/curriculum-publication.ts:305-320 | a translation is picked, as often as given, exactly when it is of a picked row |
| Selection.PayloadIsTheSelectionOrRefused | src/business/curriculum-publication.ts:343-394 | a payload is made exactly when the curriculum is live and every name resolves, and is then the selection unchanged |
| PayloadLaws.PayloadMadeExactly | src/business/curriculum-publication.ts:343-394 | told by the rows: a payload is made exactly when the curriculum is there and not marked deleted, every name in it is of a row of the payload or a live subject, and every translation is of a row of the payload in a table that has translations |
| PayloadLaws.RefusedForTheFirst | src/business/curriculum-publication.ts:343-394 | a refusal gives the first reason there is: not found; how many curriculum rows name a deleted subject and no live one; a name that does not resolve; a translation |
| Merge.OlderIsAnOrder | src/business/published-content.ts:89-90 | age by time and then by id orders publications strictly and totally |
| Merge.TheNewestHolderWins | src/business/published-content.ts:113-127 | a key has a winner exactly when some publication holds it, and the winner is the newest that does |
| Merge.EmitHolds | src/business/published-content.ts:107-110 | the emitting order is a permutation of the publications, in order of name and then of curriculum |
| Merge.MergePublished | src/business/published-content.ts:106-159 | the nested loops with their winner maps and taken set compute the specified merge |
| MergeLaws.EachRowOnceFromItsNewestPublication | src/business/published-content.ts:143-155 | per table every held key is there exactly once, its row taken whole from the newest publication holding it |
| MergeLaws.TranslationsGoWithTheirParent | src/business/published-content.ts:131-142 | a translation is kept exactly when its own publication won the row it hangs from |
| MergeOrder.MergedRowsAreTheNewest | src/business/published-content.ts:84-155 | told by dates and ids: each key some publication has is there once, its row one of the publication with the latest time, and at one moment the largest id, that has the key |
| MergeOrder.MergedTranslationsGoWithTheirRow | src/business/published-content.ts:131-142 | a translation is there exactly when the publication it is in is that newest one for the row it is of |
| MergeLaws.MergeIgnoresOrder | src/business/published-content.ts:100-105 | any permutation of publications of different ids and curricula gives the same rows in the same order |
| MergeOrder.MergedInOrder | src/business/published-content.ts:107-155 | a merged table lists its rows publication by publication, by name and id, each in its payload's order |
| MergeLaws.ConfineDropsNothingOfTheMerge | src/business/published-content.ts:209-229 | with closed payloads, `confine` over the merge and the live tables leaves out no curriculum row, although winners come from different publications |
| MergeLaws.MergePreservesClosure | src/business/published-content.ts:209-229 | and all it can still report is a subject or a country |
| PublishAll.Plan | src/business/initial-publication.ts:111-138 | the live curricula without a publication, in order of name, each built or refused: every payload and every refusal is collected, in that order |
| PublishAll.WantedAreTheUnpublished | src/business/initial-publication.ts:114-126 | a run wants exactly the live curricula that have no publication of any status, sorted by name and then by id |
| PublishAll.EveryCurriculumHasAPayload | src/business/initial-publication.ts:111-138 | over publishable content no curriculum is refused and each payload is its selection, closed |
| PublishAll.InitialRunPublishesAll | src/business/initial-publication.ts:144-196 | the initial run of an organisation with no publication refuses nothing there, and its publications are one per curriculum, each its selection |
| PublishAll.PublishAllThenMergeGivesTheContent | src/business/initial-publication.ts:17-19 | publishing everything and merging gives, per table, exactly the content's rows, translations included |
| PublishAll.PublishAllEqualsTheLiveExport | src/business/initial-publication.ts:17-19 | what is served then and what the live export sends are refused together or hold the same rows in every table |
| Canonical.CanonicalIdentifiesUpToKeyOrder | src/business/curriculum-publication.ts:196-210 | canonical values are equal exactly when the values are equal up to the order of keys |
| Canonical.RowHashIdentifiesContent | src/business/curriculum-publication.ts:218-230 | two rows hash alike exactly when they hold the same content outside the excluded columns |
| Canonical.HashTables | src/business/curriculum-publication.ts:232-247 | the loops over tables and rows compute the hashes under the text of each row's id, whatever its type |
| Canonical.PayloadHashIdentifiesContent | src/business/curriculum-publication.ts:251-254 | payload hashes agree exactly when every table holds the same rows, in whatever order |
| Canonical.NoChangeIsSameHashes | src/business/curriculum-publication.ts:449-464 | a table's counts are all zero exactly when its hashes are the same |
| Canonical.ChangedExactlyWhenSomethingIsPending | src/business/curriculum-publication.ts:957-970 | the payload hash differs from the stored one exactly when the pending summary has a count that is not zero, an absent translations table counting as empty |
| Canonical.SizesAddUp | src/business/curriculum-publication.ts:625-648 | per table the new size is the old one plus added minus removed |
| Canonical.CountsAreOfRows | src/business/curriculum-publication.ts:449-464 | the three counts are the numbers of ids that only the new rows have, only the old rows have, and both have with another content |
| Publications.PublicationStore.Publish | src/business/curriculum-publication.ts:810-874 | the locked half of a publish: refused for a deleted curriculum or when another was published since, else one publication more and the older ones pruned; a refusal writes nothing |
| Publications.PublicationStore.WithdrawPublications | src/business/publication-withdraw.ts:13-19 | every published row of the curriculum is withdrawn, and the answer says whether there was one |
| Publications.PublicationStore.Delete | src/business/curriculum.business.ts:178-199 | nothing for a curriculum that is not there or is deleted already; else the row is deleted and its publications withdrawn, and the answer says whether there were any |
| Publications.PublicationStore.PublishInitial | src/business/initial-publication.ts:150-196 | under the lock, a curriculum that gained a publication since the plan is left alone; times are one millisecond apart |
| Serving.PublishLosesExactlyToAPublication | src/business/curriculum-publication.ts:800-830 | in every interleaving, a publish that noted, read and now commits leaves the tables as they are if and only if its curriculum is deleted by now, or gained a publication after the note, or its id is taken; edits, withdrawals and other curricula never stop it |
| Publications.StepKeepsInvariant | src/business/curriculum-publication.ts:800-874 | every step of every session keeps the shape, the order and what open sessions rely on |
| Publications.EveryHistoryIsOrderedAndSerialised | src/business/curriculum-publication.ts:781-799 | in every interleaving: times strictly increase, withdrawn rows come before published ones, exactly the newest two are whole, and each content read began after the previous publication committed and is no older |
| PublicationLaws.CommitWrites | src/business/curriculum-publication.ts:832-868 | a commit that writes adds one published row in front: the payload, hashes and names of the version its session read, that read's time, the clock or one more than the last time, and the row it is compared with; the row before stays whole, the older ones lose their payload, and nothing else moves |
| PublicationLaws.APublishStoresWhatItRead | src/business/curriculum-publication.ts:800-852 | in every interleaving the stored row holds the content as it was at that publish's read, whatever was edited, retired or published in between |
| PublicationLaws.InitialWritesTheFirst | src/business/initial-publication.ts:150-196 | the initial run's write, in every interleaving, is the first row of a curriculum that has none, of the version read |
| PublicationLaws.InitialRunWrites | src/business/initial-publication.ts:150-196 | a whole initial run gives each planned curriculum without a publication exactly one, of the version planned, each a millisecond after the one before, and leaves all else |
| PublicationLaws.RetireAndDeleteWithdraw | src/business/publication-withdraw.ts:13-19 | a retire or a delete withdraws every row and moves nothing else; a delete marks the curriculum once |
| Serving.DeletedHasNothingPublished | src/business/curriculum.business.ts:164-177 | in every run of publishes, retires and deletes a deleted curriculum has no published row |
| Serving.InitialWriteKeepsDeletionExactly | src/business/initial-publication.ts:150-196 | the initial run's write keeps that exactly unless the curriculum is deleted by then and has no publication yet, because the lock does not look at the deletion again |
| Serving.InitialRunCanPublishADeletedCurriculum | src/business/initial-publication.ts:150-196 | a run of four steps that leaves a deleted curriculum published |
| Serving.DeletedButPublishedIsALateInitialRun | src/business/initial-publication.ts:150-196 | on every run, a deleted curriculum with something published has one single row, an initial one committed after the delete |
| Serving.ReadPublishedSets | src/business/published-content.ts:167-203 | one set per live curriculum whose newest row is published, with its payload; an error exactly when one of those payloads is missing or was made for another curriculum or organisation |
| Serving.ReadableExactly | src/business/published-content.ts:185-203 | a stored payload can be read exactly when it says it is of this organisation and of the row's own curriculum, without regard to case |
| Serving.ServedIsLiveWithSomethingPublished | src/business/published-content.ts:166-203 | after every run the served set is exactly the live curricula with some published row |
| PublicationLaws.ServedIsWhatThePublishRead | src/business/published-content.ts:166-203 | from edit to learner, in every interleaving: until something newer of a curriculum is published, what is served of it is that publish's publication, and its stored payload is the content as it was at that publish's read |
| Serving.PrunedOnlyAfterTwoPublishes | src/business/published-content.ts:190-201 | the publication noted by the first read is still there at the second, behind those committed between, and has lost its payload exactly when they are two or more |
| PushLanes.Server.Take | src/business/publish-push.ts:153-168 | a push is started at once, or the one later push is made or joined; other organisations are untouched |
| PushLanes.Server.Serve | src/business/publish-push.ts:171-182 | a turn of the loop starts the shared push or frees the lane |
| PushLanes.ServerRunIsOrgRuns | src/business/publish-push.ts:142-147 | organisations do not disturb each other: in any run of a server each sees just its own steps |
| PushLanes.AnAnswerCoversItsAct | src/business/publish-push.ts:34-37 | every read of the push whose outcome an act receives was made after the act committed, shared or not |
| PushLanes.OnePushInFlight | src/business/publish-push.ts:34-37 | at most one push of an organisation is in flight |
| PushLanes.PayloadsNeverGoBack | src/business/publish-push.ts:34-37 | no push reads anything older than an earlier push read |
| PushLanes.LatecomersShareOnePush | src/business/publish-push.ts:39-43 | acts waiting for a push that has not started wait for the same one |
| PushLanes.TwoPushesAreEnough | src/business/publish-push.ts:39-43 | the push an act gets is over once two pushes have ended since it asked, or one when nothing was in flight |
| PushLanes.ServiceIsBounded | src/business/publish-push.ts:171-182 | every step of service lowers what is owed by one |
| PushLanes.OnlyRequestsOweMore | src/business/publish-push.ts:153-182 | commits and reads, however many, never add to what is owed |
| PushLanes.SomeoneCanBeServed | src/business/publish-push.ts:171-182 | while anyone waits or the lane is held there is a step of service to take |
| PushLanes.ServiceReachesEveryone | src/business/publish-push.ts:171-182 | no waiter is lost: any order of service ends, and after as many steps as are owed every act that asked is answered and the lane is free |
| ImportSlots.FixedLessons | scripts/lib/dcrs-content-plan.js:290-312 | the counter of extra ids gives each fixed lesson the join ids the slots specify |
| ImportSlots.SlotIdsAreDistinct | scripts/lib/dcrs-content-plan.js:284-339 | no two slots and no two parts of a slot share an id |
| ImportSlots.ModulesShareNoId | scripts/lib/dcrs-content-plan.js:562-576 | the assertions that a module's ids are no other's, nor the seed's own, never fire |
| ImportContent.Validate | scripts/lib/dcrs-content-plan.js:358-497 | the check, with its sets of what was seen, finds no problem exactly in an acceptable file |
| ImportValid.AcceptableExactly | scripts/lib/dcrs-content-plan.js:358-497 | which files those are, place by place: every text in both languages, every question with two to eight options of which one is correct, every lesson in a place of its own, no two lessons sharing an order, a seed lesson or a video, no two questions an identifier, at most seven questions for the seed's ids |
| ImportRows.AcceptableIsWellPlaced | scripts/lib/dcrs-content-plan.js:586-699 | an acceptable file's lessons get different slots, and no question id is given out twice, from the pool or otherwise |
| ImportFile.QuestionsGetTheirIds | scripts/lib/dcrs-content-plan.js:677-699 | each question gets the id its place in the file says: its lesson's own, or the next of the seed's seven in order of the lessons, practice before quiz |
| ImportRows.PlanTouchesDifferentRows | scripts/lib/dcrs-content-plan.js:625-947 | no two steps of a plan touch the same row or the same text: upserts and hides are distinct and disjoint |
| ImportSteps.Connection.RunPlan | scripts/lib/dcrs-content-apply.js:175-209 | the steps run in order with their counts, then the check; any failure leaves the database as it was |
| ImportSteps.ApplyMakesEachHold | scripts/lib/dcrs-content-plan.js:991-1019 | after steps that touch different rows none has anything left to do |
| ImportSteps.HoldingStepsChangeNothing | scripts/lib/dcrs-content-apply.js:11-14 | steps with nothing left to do change nothing and count nothing inserted, updated or hidden |
| ImportSteps.CheckFailsOnlyOnForeignTexts | scripts/lib/dcrs-content-apply.js:218-261 | the check after such steps fails exactly when a text was there already as another organisation's |
| ImportRun.BuildSteps | scripts/lib/dcrs-content-plan.js:625-947 | pushing the steps group by group gives the specified plan |
| ImportRun.AddSiblings | scripts/lib/dcrs-content-plan.js:621-623 | the loop adds up the points of the grade's other levels that are on and not deleted |
| ImportRun.Importer.Run | scripts/lib/dcrs-content-apply.js:58-209 | a whole run: validated, planned or refused against what is stored, checked, applied; a refusal writes nothing |
| ImportChecks.AcceptedExactly | scripts/lib/dcrs-content-plan.js:542-760 | a run is accepted if and only if the file is acceptable and, against what is stored: the language is English or unset, Module 1 is not hidden and a new level has its switch, no further lesson is renamed without the flag, every stored question keeps its set, its number of options and its correct option unless it is the seed's placeholder, every stored lesson can be passed, what it hangs from is there, and no row or text it writes is another organisation's |
| ImportChecks.RefusedForTheFirst | scripts/lib/dcrs-content-plan.js:542-760 | a refused run says which: the first of those checks, in the order they are made, that is not met |
| ImportTexts.ProgrammeIsTranslated | scripts/lib/dcrs-content-plan.js:905-925 | after an accepted run the curriculum, the grade and the level have the file's Khmer names, with the hash of the English they translate |
| ImportTexts.LessonIsTranslated | scripts/lib/dcrs-content-plan.js:756-845 | and so have each lesson of the file, its learning item, its practice and its quiz |
| ImportTexts.QuestionIsTranslated | scripts/lib/dcrs-content-plan.js:201-209 | and every question's text and heading, each option and each feedback message, under the question's id |
| ImportWrites.ProgrammeIsWritten | scripts/lib/dcrs-content-plan.js:625-675 | the curriculum's, the grade's and the level's rows hold the file's values column by column; a stored row keeps every other column |
| ImportWrites.LessonIsWritten | scripts/lib/dcrs-content-plan.js:756-840 | so do each lesson's row, its video's, its learning item's, its practice's and its quiz's: order, names, switches, and, when new, points and pass mark |
| ImportWrites.QuestionIsWritten | scripts/lib/dcrs-content-plan.js:859-904 | so does each question's row, and its join stands in its place of its lesson's set |
| ImportHides.UnnamedLessonIsDeleted | scripts/lib/dcrs-content-plan.js:927-931 | a lesson of the module that the file does not name is deleted after the run, with its document |
| ImportHides.UnnamedItemsAreOff | scripts/lib/dcrs-content-plan.js:932-934 | and its learning item, practice and quiz are switched off |
| ImportHides.UnusedPlaceIsOff | scripts/lib/dcrs-content-plan.js:935-946 | a place of a set that the file leaves empty is switched off |
| ImportHides.UnaskedQuestionIsHidden | scripts/lib/dcrs-content-plan.js:947 | a question of the module that the file does not ask is deleted |
| ImportCounts.ReportIsOfTheRun | scripts/lib/dcrs-content-apply.js:175-209 | table by table the report counts the rows that appeared, and those that were there and are another now |
| ImportCounts.ReportCountsTexts | scripts/lib/dcrs-content-apply.js:175-209 | and so the texts; the organisation counts as updated exactly when it had no language, and has English then |
| ImportLaws.SameStepsAgain | scripts/lib/dcrs-content-plan.js:611-623 | against the database a run left, the same file and flags give the very same steps |
| ImportLaws.ImportIsAFixpoint | scripts/lib/dcrs-content-plan.js:542-988 | after an accepted run the same file and flags are accepted again, the check passes, and nothing is inserted, updated or hidden |
| ImportLaws.KeptVideoIsNotTouched | scripts/lib/dcrs-content-plan.js:780-796 | no step of a plan touches the document of a video the file keeps |
| ImportLaws.NamedLessonsCanBePassed | scripts/lib/dcrs-content-plan.js:728-743 | every lesson an accepted run names that has a finite pass mark can reach it with the sets the file gives it |
| ImportLaws.RowsThatAppearDecideThePassMark | scripts/lib/dcrs-content-plan.js:219-249 | when rows appear between planning and applying, that holds exactly when none of them was out of reach already |
| ImportSequence.SeedRunLeavesOutOfReach | scripts/seed-dcrs-content.js:306-358 | read, plan, the seed's own pass, apply: a lesson the file names ends with a mark out of reach if and only if it is a fixed one, was absent when read, and the file leaves it a set empty |
| ImportSequence.DerivedQuestionsKeepTheirMeaning | scripts/lib/dcrs-content-plan.js:701-727 | over every sequence of runs a written derived question keeps its option count and its correct option and is never put in the other set |
| ImportSequence.NamedQuestionIsWritten | scripts/lib/dcrs-content-plan.js:859-906 | a question a run names has the file's options and is in its set |
| ImportSequence.OtherModulesStay | scripts/lib/dcrs-content-plan.js:625-947 | a run changes only its own module's rows and texts, and the curriculum's and the grade's |
| ImportSequence.OtherModulesRunsChangeNothing | scripts/lib/dcrs-content-plan.js:927-947 | over every sequence of other modules' runs a module's rows and texts stay as they are |
| ImportSequence.RunFailsOnlyOnForeignTexts | scripts/lib/dcrs-content-apply.js:175-261 | a planned run past its first checks is rolled back exactly when a text it writes is another organisation's |
| ImportSequence.FirstImport | scripts/lib/dcrs-content-plan.js:551-562 | into a database with no content but perhaps levels a file goes if and only if it is an acceptable Module 1 file with no kept video, run live or with its level there already, for an organisation of the base language or none |
| ImportPoints.LevelPointsAreOffBy | scripts/lib/dcrs-content-plan.js:611-623 | for every accepted run: the level's points written and central's own sum over the result differ by exactly the points of other lessons a person put in the level, the quiz points of a level moved to another grade, and the points of the file's lessons moved to another level |
| ImportPoints.LevelPointsAreTheSum | scripts/lib/dcrs-content-plan.js:611-623 | when the level holds just the module's lessons, the level's points are central's sum if and only if the level is new, or in the programme's grade, or has no active quiz worth anything |
| ImportPoints.GradePointsAreTheSum | scripts/lib/dcrs-content-plan.js:621-623 | the grade's points written are central's sum over the result if and only if the level is worth nothing, or is switched off, or is on and new or in the programme's grade |
| ImportPoints.MovedLevelIsMiscounted | scripts/lib/dcrs-content-apply.js:62-67 | Module 1's level in another grade, with an active quiz: a live run is accepted, and neither the level's points nor the grade's are central's sums |
| Points.Central.RecomputeLevel | src/business/level.business.ts:284-303 | the level's points become its defining sum, then its grade's do |
| Points.Central.RecomputeGrade | src/business/level.business.ts:309-324 | the grade's points become the sum over its levels that count |
| Points.Central.AddLevel | src/business/level.business.ts:27-35 | a new level recomputes itself and its grade |
| Points.Central.ChangeLevel | src/business/level.business.ts:178-210 | an update, or a move to another grade, recomputes the level and both grades |
| Points.Central.RemoveLevel | src/business/level.business.ts:211-223 | a delete recomputes the level and its grade |
| Points.Central.TurnLevel | src/business/level.business.ts:225-249 | a switch recomputes the grade alone |
| Points.Central.ResetAllQuizPoints | src/business/level.business.ts:326-344 | every live level in turn |
| Points.Central.AddLesson | src/business/lesson.business.ts:35-45 | a new lesson recomputes its level |
| Points.Central.ChangeLesson | src/business/lesson.business.ts:189-221 | an update, or a move to another level, recomputes both levels |
| Points.Central.RemoveLesson | src/business/lesson.business.ts:222-235 | a delete recomputes the level |
| Points.Central.TurnLesson | src/business/lesson.business.ts:237-261 | a switch recomputes the level |
| Points.Central.AddQuizRow | src/business/levelquizquestion.business.ts:26-32 | a new level-quiz row recomputes its level |
| Points.Central.TurnQuizRow | src/business/levelquizquestion.business.ts:161-195 | switching a row on or off recomputes its level |
| Points.Central.RemoveQuizRow | src/business/levelquizquestion.business.ts:150-159 | removing a row recomputes its level |
| Points.LevelRepaired | src/business/level.business.ts:284-303 | recomputing a level repairs it and its grade and breaks no other cache |
| Points.OperationKeepsCached | src/business/level.business.ts:276-283 | every single operation keeps every cache equal to its defining sum |
| Points.EveryCacheIsTheSum | src/business/level.business.ts:276-308 | after every sequence of operations every level's and every grade's points are the defining sum |
| PointsLaws.CreateLessonWrites | src/business/lesson.business.ts:35-45 | a new lesson is in its level with its points, not deleted and on; beside it only points of its level and grade may change |
| PointsLaws.UpdateLessonWrites | src/business/lesson.business.ts:189-221 | an updated lesson is in the level and worth the points asked for, or 100; beside it only points of the two levels and their grades may change |
| PointsLaws.LessonSwitchesWrite | src/business/lesson.business.ts:222-261 | a deleted lesson is deleted, a switched one is on or off as asked, and nothing else of it moves |
| PointsLaws.ChangeItemsWrites | src/business/lesson.business.ts:289-318 | a change of a lesson's items writes points only |
| PointsLaws.CreatesWrite | src/business/level.business.ts:27-35 | a new level is on, in its grade, its quiz worth what was asked; a new grade is worth nothing |
| PointsLaws.UpdateLevelWrites | src/business/level.business.ts:178-210 | an updated level is in the grade asked for, its quiz worth what was asked or 10, its switch as it was |
| PointsLaws.LevelSwitchesWrite | src/business/level.business.ts:211-249 | a deleted level is deleted, a switched one is on or off as asked, and nothing else of it but points moves |
| PointsLaws.QuizRowsWrite | src/business/levelquizquestion.business.ts:150-195 | a quiz row is added to its level, switched as asked, or removed; no other row moves |
| PointsLaws.ResetQuizPointsWrites | src/business/level.business.ts:326-344 | a reset sets the quiz points of exactly the levels listed |
| PointsLaws.ResetLessonsWrites | src/business/lesson.business.ts:378-406 | a reset sets the points of exactly the lessons listed |
| PointsMoves.LessonMovesPoints | src/business/level.business.ts:276-303 | whatever is done to one lesson, created, moved, revalued, deleted or switched, every level's points move by what that lesson is worth to it afterwards less what it was worth before, worth being its points while it is on and not deleted |
| PointsMoves.QuizRowMovesPoints | src/business/level.business.ts:276-303 | whatever is done to one quiz row, every level's points move by its quiz points exactly when it gains its first active row or loses its last |
| PointsMoves.LevelMovesPoints | src/business/level.business.ts:309-324 | whatever is done to one level, every grade's points move by what that level is worth to it, on and not deleted |
| LessonPoints.LessonRow.UpdateLearningPracticeQuiz | src/business/lesson.business.ts:334-376 | every row gets the floor share and one last row the rest; the kinds' totals follow |
| LessonPoints.LessonRow.UpdateLast | src/business/lessonquiz.business.ts:207-220 | the rest goes to the row of the highest order and to the lesson's points of its kind |
| LessonPoints.RowsHoldTheirShare | src/business/lesson.business.ts:334-376 | every row holds the total by the number of items, rounded down, and one row of the highest order of the kind that takes the rest holds the remainder more |
| LessonPoints.PointsAreConserved | src/business/lesson.business.ts:334-376 | the three totals sum to the lesson's, what is left over is below the number of items, and the items hold the total plus one share for every soft-deleted row |
| LessonPoints.ItemsHoldTheTotalExactly | src/business/lesson.business.ts:319-338 | the items hold exactly the total if and only if no row is soft-deleted or the share is nothing |
| LessonPoints.SoftDeletedRowsAddPoints | src/business/lessonpractice.business.ts:200-205 | a lesson whose soft-deleted quiz makes it hand out more than it has |
| LogImport.FindInChunks | src/business/log-scope.ts:102-110 | for every chunk size from 1, the same rows as one lookup of all the ids |
| LogImport.AssertLogRowsInSchool | src/business/log-scope.ts:132-230 | the verdict is that of the specification, whatever the chunk size |
| LogLaws.AcceptedExactly | src/business/log-scope.ts:132-230 | told by the columns and the registry: an upload passes if and only if every id is one and, when it names anyone, the teacher has a school and every row, every stored row it reaches, and the result of every question and stored question, is of a learner of that school or of a login whose own school and whose every learner's school it is |
| LogImport.LogTables.ImportLogs | src/business/log.business.ts:250-281 | checked, then written whole, or refused with nothing written |
| LogImport.OutsideRowsStay | src/business/log-scope.ts:23-34 | accepted, every stored row about anyone outside the school stays as it is |
| LogImport.WrittenRowsBelong | src/business/log-scope.ts:23-34 | every row written is about the school's own |
| LogImport.OutsideQuestionsStay | src/business/log-scope.ts:190-230 | every stored question of a result outside the school stays as it is |
| LogImport.WrittenQuestionsBelong | src/business/log-scope.ts:190-230 | every question written hangs from a result of the school's learner, as the tables are afterwards |
| LogLaws.UploadedRowIsStored | src/business/log.business.ts:250-281 | an accepted row is stored as it is, each value in its column, and is the school's own by the columns and the registry |
| LogLaws.OtherRowsStay | src/business/log-scope.ts:23-34 | a stored row of any learner or login outside the school, or that no uploaded row has the key of, stays as it is |
| LogLaws.UploadedQuestionIsStored | src/business/log.business.ts:250-281 | an accepted question is stored as it is, under a result whose learner is, afterwards, of the school |
| LogLaws.OtherQuestionsStay | src/business/log-scope.ts:190-230 | a stored question of a result of anyone else, or that no uploaded one has the key of, stays as it is |
| Scope.WalkFollowsTheParents | src/business/content-owner.ts:65-163 | each of the twenty resolvers is one step to the parent that the kinds' table names, then that parent's resolver |
| Scope.RequestScope.Ids | src/business/content-scope.ts:287-329 | through the memo, the ids in scope; each kind is read at most once for a request |
| Scope.ListsAgreeWithTheWalk | src/business/content-scope.ts:205-214 | for every kind and id, being found through the list is the same as being walked to the organisation, if and only if nothing listed has an empty key and every owner listed is written as the organisation is |
| Scope.WalkedIsListed | src/business/content-scope.ts:306-329 | whatever the walk gives an organisation is in its lists, with no condition |
| Scope.OwnersInOtherCaseDisagree | src/business/content-scope.ts:205-214 | a curriculum whose owner is stored in another case is listed but not walked to the organisation |
| Scope.KeysAreNotEmpty | src/business/content-scope.ts:306-329 | tables without empty keys are such tables |
| Scope.EmptyKeysDisagree | src/business/content-owner.ts:49-61 | a grade under a curriculum with an empty key is listed but not walked to the organisation |
| Scope.OwnedByOneOrganisation | src/business/content-scope.ts:306-329 | no row is in the lists of two organisations the database tells apart; those it does not have the same lists |
| Scope.BatchedOwnersAreTheWalk | src/business/row-owner.ts:25-48 | each batched owner map gives a row the owner the walk gives it if and only if the walk gives none, or the id and every id on its way up is written as the key of the row it finds |
| Scope.LinksInOtherCaseAreLost | src/business/row-owner.ts:35-40 | a grade that stores its curriculum's id in another case has an owner by the walk and none in the map |

## Left out

- HTTP, S3, zip files, the modules' wiring, SQL text and the object mapper: tables are maps or lists of rows; a query is a step.
- Ids are lower-cased in ASCII only. `Scope` takes any collation; for the batched maps, one under which no text but the empty one finds an empty id. The import's owner checks compare organisations exactly, where the database would not tell case apart.
- JSON text is not produced: canonical values, option lists, headings and list columns are compared as values. A list column stored as text is read by a parameter. JavaScript lists integer-like keys first; the model keeps the order written.
- Numbers are whole, and written out in digits where the code turns one into text; a column that is not there reads as NULL.
- The language rules for translations (`exportableTranslations`), organisation rows and the envelope of the export's payload.
- `movedAway`, `sharedRows`, the names and cut-off lists of a summary, and the wording of refusals; the counts and the base of comparison are there.
- The merge tells publications apart by value where the code compares references; two publications have different ids.
- Publications.PublicationStore.PublishInitial: writes all its curricula in one call, as the code does; the runs take one curriculum at a time, which interleaves more.
- The shape of a stored payload as JSON, when a served set is read: it is there or it is not.
- LogImport.LogTables.ImportLogs: takes a parsed log; the checks of the upload's form before it are left out, but for the three parts a log must have.
- A second server process, and the learner server's own imports, which the code says it does not cover either. How long a push takes: a push ends in a step, and only the statements about service count on that step being taken.
- ImportContent.Validate: takes a file already of the right JSON types, and counts problems without their texts.
- ImportSteps.Connection.VerifyPlan: checks row by row; the code counts the rows of a table that are to carry the same switches together, which is the same for distinct ids (`ImportRows.PlanTouchesDifferentRows`).
- The import's rows have one unique key each, and columns hold what they are given: MySQL's conversions, other unique keys, and a translation whose id is taken by another text are not modelled. Numbers in columns are integers or NULL. The table and column checks of `preflight`, the notices and the media list are left out, and so are `--dry-run` and the seed's own pass, but for the statement above.
- That Module 1's seven pooled question ids keep their set: a hidden pooled question may return in the other set. `ImportChecks.AcceptedExactly` has the exact condition: only a question that no active row puts in a set is let into another.
- Saves that the points code does not await are treated as finished. Writes that would break a foreign key do nothing. Ties between last items of equal order go to the first listed; the theorems hold of any choice.
- The log rows' other columns are one value; forced `verified`, the point totals, the content and completeness checks of a log, the teacher's own login check, and unique keys other than the primary key are left out. Keys are looked up for all tables together, and a lookup finds what it would row by row.
- A failed read dropped from the memo of owned ids, the platform's unlimited scope, attach and tag rules, schools and curriculum countries in `Scope`.
- Paging, name checks, reordering, audit columns, spreadsheets, reports and sign-in.
