# HireOS back ends: a verified model

HireOS is a set of hiring back ends.  Most of their code moves data between tables and pages, but some
of it holds protocols and algorithms that are easy to get wrong.  This project models those in Dafny
and proves what they keep, over every run and every input.

| file | what it models |
|---|---|
| `ParseQueue.dfy` | the queue of AI parse jobs: workers that find, claim, run and write under a lease with a fencing token |
| `CoreRecord.dfy` | the Core Record store: idempotency keys, versions, audit trail, outbox and status history |
| `CoreRecordEffects.dfy`, `CoreRecordReplay.dfy` | what each request does to it, column by column, and what requests sent again are answered |
| `PdfText.dfy`, `PackagePdf.dfy` | the PDF writer, down to the bytes |
| `PdfReader.dfy`, `PdfDocument.dfy` | a reader of its files, from the bytes back to pages, texts and links |
| `TextLayout.dfy` | line breaking and the block-aware pagination that feeds the PDF writer |
| `CodeLimiter.dfy` | the limits on sign-in codes, checked under two ordered locks |
| `Sessions.dfy` | the throttled sliding expiry of sessions |
| `Expression.dfy` | the template expression evaluator |
| `ExpressionText.dfy`, `ExpressionCases.dfy` | that it computes expression trees from their text, and what it does with any string |
| `Offer.dfy` | evaluation packages, their frozen versions and the hand-off to Offer |
| `Screening.dfy` | screening reports and their resolutions |
| `Calendar.dfy`, `ZonedTime.dfy` | wall times to instants |
| `Transcript.dfy`, `Citations.dfy` | merging transcript lines, and checking and repairing citations |
| `Common.dfy`, `Numerals.dfy`, `Text.dfy` | shared types, decimal numerals, white space and words |

A protocol is a `State`, the `Step`s anyone may take, a total function `Apply` and its iteration `Run`:
every sequence of steps is a run, so a claim about all runs covers all interleavings.  Beside it stands
a class with the program's own fields, whose methods are proved to take exactly those steps.  Code that
loops is a method proved against a function, and the claims are lemmas about that function.

`dafny verify dfyconfig.toml` checks everything.

## Assumptions

- Hashes are injective: a request hash, a content hash or a lock number stands for what it was taken of.
- Random tokens and ids are fresh, and are modelled as counters.
- Clocks are shared and do not run backwards.  In `ParseQueue` every step that reads or writes a time is
  later than the one before it.
- A transaction takes effect as a whole or not at all.  Rows read before it are read in a step of their
  own, and so are the checks made under locks.
- Default columns that the schema fills in take the time of the step; first versions are 1.
- A clock reading may be older than the write that carries it, by any amount, but not older than what the
  same code had seen before it: in `ParseQueue` a claim reads the clock after its find, a failure after its
  claim was written, and a retry after the job was there.  The laws that need a bound are about prompt
  runs (`ParseQueue.PromptRun`, `Sessions.PromptRun`) and say so.
- Texts are well formed: a `char` is a whole character, where the program's strings may hold a lone
  surrogate.  So the laws about texts, their UTF-16 units among them, are about texts without one.
- In `ZonedTime`, offsets are whole minutes of less than a day, and change at most once in the two days
  around a wall time; instants are whole minutes.

## Model

| member | source | states |
|---|---|---|
| `ParseQueue.StepKeepsInv` | hireos-interview/job-Interview-backend/src/intake/parsing.service.ts:22-50 | every step of any worker or person keeps rows, workers and log consistent, whatever runs beside it |
| `ParseQueue.RunKeepsInv` | hireos-interview/job-Interview-backend/src/intake/parsing.service.ts:22-50 | so every interleaving from an empty queue does |
| `ParseQueue.ParsingExactlyWhenLeased` | hireos-interview/job-Interview-backend/src/intake/parsing.service.ts:31-48 | a row is `parsing` exactly while it carries a lease token |
| `ParseQueue.OnlyTheLeaseHolderDecides` | hireos-interview/job-Interview-backend/src/intake/parsing.service.ts:37-48 | an outcome is written exactly by the worker whose claim is the last thing that happened to the job; any other worker's write matches no row |
| `ParseQueue.ChangesAreLogged` | hireos-interview/job-Interview-backend/src/intake/parsing.service.ts:31-48 | no row changes without an event about that job, so claims about the log are claims about the table |
| `ParseQueue.ReviewIsFinal` | hireos-interview/job-Interview-backend/src/intake/parsing.service.ts:24-48 | a job in `needs_review` never changes again |
| `ParseQueue.ClaimsComeNoEarlier` | hireos-interview/job-Interview-backend/src/intake/parsing.service.ts:24-33 | a claim comes after the back-off of a requeue and after the whole lease of an earlier claim, both from the clock reading that was written, and never after a final outcome without a person's retry |
| `ParseQueue.RunRemembers` | hireos-interview/job-Interview-backend/src/intake/parsing.service.ts:23-48 | in every run a row found is the row still or was written since, and a worker whose claim or failure can take effect remembers no fewer attempts than there were requeues |
| `ParseQueue.ClaimSeesTheRowAsRead` | hireos-interview/job-Interview-backend/src/intake/parsing.service.ts:23-34 | in every run a claim that can succeed finds the row exactly as it was read, unless the last write about the job came after the worker read its clock and so late that the back-off, lease or retry time it set was over by then |
| `ParseQueue.PromptClaimSeesTheRow` | hireos-interview/job-Interview-backend/src/intake/parsing.service.ts:23-34 | so where claims are written within the lease and failures within 5 s of their clock reading, only a retry read before and written after the worker's clock reading is left as an exception |
| `ParseQueue.ClaimSeesTheRowExactly` | hireos-interview/job-Interview-backend/src/intake/parsing.service.ts:23-34 | and where retries are written at the time they read, there is none |
| `ParseQueue.RetryAcrossIsSeen` | hireos-interview/job-Interview-backend/src/intake/parsing.service.ts:79-86 | such a retry, 4 ms late: a claim can succeed on a row its worker did not read |
| `ParseQueue.LateFailureIsSeenStale` | hireos-interview/job-Interview-backend/src/intake/parsing.service.ts:42-48 | a failure 5001 ms late after its lease ran out, with the same effect |
| `ParseQueue.LateClaimIsSeenStale` | hireos-interview/job-Interview-backend/src/intake/parsing.service.ts:31-33 | a claim 90002 ms late, with the same effect |
| `ParseQueue.RequeuesAreFew` | hireos-interview/job-Interview-backend/src/intake/parsing.service.ts:43-48 | in every run a job is requeued at most twice between two human retries, however late writes come |
| `ParseQueue.RequeuesWait` | hireos-interview/job-Interview-backend/src/intake/parsing.service.ts:43-48 | in every run the next claim is more than 5 s after the clock reading of the first requeue, and more than 10 s after that of the second |
| `ParseQueue.RowIsItsHistory` | hireos-interview/job-Interview-backend/src/intake/parsing.service.ts:31-48 | in every run the log alone gives every column of every row: when it was made, its attempts since the last retry, its lease, its next run time, the error of its last failure, and a result exactly for a job completed last |
| `ParseQueue.LastOutcomeStands` | hireos-interview/job-Interview-backend/src/intake/parsing.service.ts:37-48 | in every run a row whose last event is a completion holds that result and no error, and one last failed or requeued holds the error of that failure |
| `ParseQueue.CompletionIsStored` | hireos-interview/job-Interview-backend/src/intake/parsing.service.ts:37-40 | a completion that holds the lease stores the result it was given and clears error and lease; the other columns, rows and workers stay |
| `ParseQueue.FailureIsStored` | hireos-interview/job-Interview-backend/src/intake/parsing.service.ts:42-48 | a failure that holds the lease stores its error and 5 s times 2 to the attempt after its own clock reading, and goes back to the queue exactly when it may be retried and fewer than two attempts had been read; the rest stays |
| `ParseQueue.LateOutcomeIsDropped` | hireos-interview/job-Interview-backend/src/intake/parsing.service.ts:37-48 | the outcome of a worker that lost its lease changes no row |
| `ParseQueue.ClaimIsStored` | hireos-interview/job-Interview-backend/src/intake/parsing.service.ts:31-34 | a claim wins exactly when the row may still be claimed; it takes a token no row carries, 90 s from its clock reading and one more attempt; the other columns, rows and workers stay |
| `ParseQueue.RetryIsStored` | hireos-interview/job-Interview-backend/src/intake/parsing.service.ts:79-88 | a retry of a failed job whose input is current forgets its attempts and error; any other changes nothing |
| `ParseQueue.WorkersBeginAndStop` | hireos-interview/job-Interview-backend/src/intake/parsing.service.ts:22-28 | a worker begins with the present time, and is idle again when it finds nothing or stops |
| `ParseQueue.EligibleExactly` | hireos-interview/job-Interview-backend/src/intake/parsing.service.ts:24-26 | in every run a job may be claimed exactly from the time its last event sets: at once, after the back-off, or once 90 s are over |
| `ParseQueue.OldestIsFound` | hireos-interview/job-Interview-backend/src/intake/parsing.service.ts:27-28 | in every run a worker finds a job made no later than any other it could claim, as it is then, and nothing only if there is none |
| `ParseQueue.ParsingService.constructor` | hireos-interview/job-Interview-backend/src/intake/parsing.service.ts:10-14 | starts as the empty queue |
| `ParseQueue.ParsingService.FindFirst` | hireos-interview/job-Interview-backend/src/intake/parsing.service.ts:24-27 | finds an eligible job than which no eligible job is older, or none if there is none |
| `ParseQueue.ParsingService.Find` | hireos-interview/job-Interview-backend/src/intake/parsing.service.ts:27-28 | the first query of `tick` as a step |
| `ParseQueue.ParsingService.Claim` | hireos-interview/job-Interview-backend/src/intake/parsing.service.ts:29-34 | the compare-and-set as a step; it wins exactly when the job is still eligible |
| `ParseQueue.ParsingService.Complete` | hireos-interview/job-Interview-backend/src/intake/parsing.service.ts:37-40 | writes the result exactly when the lease is still held |
| `ParseQueue.ParsingService.Fail` | hireos-interview/job-Interview-backend/src/intake/parsing.service.ts:42-48 | requeues with back-off or fails the job exactly when the lease is still held |
| `ParseQueue.ParsingService.Retry` | hireos-interview/job-Interview-backend/src/intake/parsing.service.ts:79-88 | accepts exactly failed jobs whose input is current |
| `CoreRecord.StepOk` | hireos-core-record/src/records.ts:27-65 | every step of any request, deletions included, keeps the trails whole, the links unique, the references good and the early reads explained |
| `CoreRecord.RunOk` | hireos-core-record/src/records.ts:27-65 | so every interleaving from an empty store does |
| `CoreRecord.RunGrows` | hireos-core-record/src/jobs/jobs.service.ts:171-185 | only jobs are ever removed, and then for good; other rows, used keys and the candidate of a file are never taken back, and versions never fall |
| `CoreRecord.CommittingOk` | hireos-core-record/src/applications/applications.service.ts:116-154 | a commit takes its key together with its writes, or changes nothing |
| `CoreRecord.TrailIsWhole` | hireos-core-record/src/applications/applications.service.ts:56-93 | for every row: audit records from creation to now without a break, one outbox event per version, a status history that joins end to end and ends at the present status |
| `CoreRecord.DeletionLeavesATrail` | hireos-core-record/src/jobs/jobs.service.ts:185-200 | the trail of a deleted job is that of its whole life and one last record and event, which quote the version the deletion read; it stays so |
| `CoreRecord.ApplicationsAreForRows` | hireos-core-record/prisma/schema.prisma:151-152 | in every interleaving with deletions an application's candidate and job are rows of its workspace |
| `CoreRecord.UniqueLinksHold` | hireos-core-record/src/applications/applications.service.ts:41-66 | one application per candidate, job and cycle, and one material per file, in a workspace |
| `CoreRecord.KeyChangesStoreAtMostOnce` | hireos-core-record/src/records.ts:34-65 | requests with one (workspace, operation, key) change the store at most once, creations, patches and deletions alike |
| `CoreRecord.OneCandidatePerFile` | hireos-core-record/src/candidates/candidates.service.ts:86-116 | everyone who asks for the candidate of a file gets the same one, made at most by the first to ask |
| `CoreRecordEffects.SameKeyIff` | hireos-core-record/src/records.ts:34-36 | two requests share an idempotency key exactly when workspace, key, operation and, for patches and deletions, the row are the same |
| `CoreRecordEffects.BeginningExactly` | hireos-core-record/src/applications/applications.service.ts:109-115 | which patches and deletions are answered before their transaction, and with what: not found, status required, an empty patch, or the application that has the status already |
| `CoreRecordEffects.CountingUpExactly` | hireos-core-record/src/jobs/jobs.service.ts:173-180 | a deletion is refused before its transaction exactly while an application is for the job |
| `CoreRecordEffects.LookingUpExactly` | hireos-core-record/src/applications/applications.service.ts:31-55 | which requests the look-up ends, and with what; and an existing application or material is found exactly when there is one |
| `CoreRecordEffects.PatchCommitsIff` | hireos-core-record/src/candidates/candidates.service.ts:143-148 | a patch commits exactly when the version it expects is the one it read, its columns exist, the row is still as read and its key is free; and which refusal it gets otherwise |
| `CoreRecordEffects.PatchIsStored` | hireos-core-record/src/candidates/candidates.service.ts:144-178 | every field the patch names holds what it says and every other is as before, the status is the one asked for or as before, kind, workspace and links stay, no other row or key changes, one record, event and status change are added, and the answer and the stored one are that row |
| `CoreRecordEffects.CreationCommitsIff` | hireos-core-record/src/applications/applications.service.ts:51-66 | a creation commits exactly when its link is free in the workspace, what it refers to is still there and its key is free |
| `CoreRecordEffects.CreationIsStored` | hireos-core-record/src/applications/applications.service.ts:56-93 | the row asked for, with its fields, first status and link, under the next id, with its first record, event and history row; nothing else changes |
| `CoreRecordEffects.FoundIsAnswered` | hireos-core-record/src/applications/applications.service.ts:51-55 | a creation that found its row there already stores that answer and nothing else |
| `CoreRecordEffects.DeletionIsStored` | hireos-core-record/src/jobs/jobs.service.ts:181-203 | a deletion commits exactly when the job is there without applications and its key is free; it takes the row and its history and nothing else |
| `CoreRecordEffects.ResolutionIsStored` | hireos-core-record/src/candidates/candidates.service.ts:88-115 | a file with a candidate is left alone; another gets a new active one with the fields given, and all else stays |
| `CoreRecordEffects.CommitIsAnswered` | hireos-core-record/src/applications/applications.service.ts:116-154 | a commit leaves the tables of its outcome and answers its request with it; one that is undone leaves the tables as they were |
| `CoreRecordEffects.ReadsChangeNothing` | hireos-core-record/src/applications/applications.service.ts:108-118 | the early read, the count and the look-up leave the tables alone and move only their own request |
| `CoreRecordEffects.ResolutionIsAnswered` | hireos-core-record/src/candidates/candidates.service.ts:88-115 | whoever asks for the candidate of a file is told the one it has then, and whether it was made for them |
| `CoreRecordEffects.AnswersAreToTheRequest` | hireos-core-record/src/records.ts:41-65 | in every run whatever a request is answered is a refusal or tells of what it asked about, in its workspace: a patched row with every change in it, the application or material with the link asked for, the job deleted |
| `CoreRecord.CoreRecordStore.StoreIdempotency` | hireos-core-record/src/records.ts:46-65 | stores the key exactly when it is free |
| `CoreRecord.CoreRecordStore.CommitPatch` | hireos-core-record/src/candidates/candidates.service.ts:140-181 | the transaction of `candidate.patch`, `job.patch` and `application.patch`: all of its writes or none |
| `CoreRecord.CoreRecordStore.CommitCreate` | hireos-core-record/src/applications/applications.service.ts:51-93 | the transaction of the create operations: all of its writes or none |
| `CoreRecord.CoreRecordStore.CommitDelete` | hireos-core-record/src/jobs/jobs.service.ts:181-203 | the transaction of `job.delete`: all of its writes or none, and none while an application is for the job |
| `CoreRecord.CoreRecordStore.ResolveForMaterial` | hireos-core-record/src/candidates/candidates.service.ts:88-115 | answers the candidate of a locked material row, making and linking one if there is none |
| `CoreRecordReplay.BegunReplayAnswersAsFirst` | hireos-core-record/src/applications/applications.service.ts:116-118 | any request with a used key, once its early read let it begin, is answered from the store, or refused when its input differs, whatever runs beside it |
| `CoreRecordReplay.ReplayIsDecidedAtBegin` | hireos-core-record/src/records.ts:27-44 | what a request with a used key is answered is decided by the state it begins in, in every run |
| `CoreRecordReplay.ReplayAnswersAsFirst` | hireos-core-record/src/candidates/candidates.service.ts:131-142 | creations and candidate patches with a used key get the stored response if their input is the same and are refused if not |
| `CoreRecordReplay.JobPatchReplay` | hireos-core-record/src/jobs/jobs.service.ts:113-123 | a job patch sent again is answered from the store exactly when the job is there as it begins, and with not found otherwise |
| `CoreRecordReplay.ApplicationPatchReplay` | hireos-core-record/src/applications/applications.service.ts:112-118 | an application patch sent again is answered from the store exactly when it asks for another status than the one read at its beginning, whatever runs between its steps |
| `CoreRecordReplay.DeletionReplay` | hireos-core-record/src/jobs/jobs.service.ts:171-184 | a deletion sent again is never answered from the store but with not found |
| `CoreRecordReplay.JobPatchForgotten` | hireos-core-record/src/jobs/jobs.service.ts:113-185 | wherever a job is patched and then deleted, the patch sent again is answered with not found and not with its stored success |
| `CoreRecordReplay.AJobPatchIsForgotten` | hireos-core-record/src/jobs/jobs.service.ts:113-185 | such a run from the empty store |
| `CoreRecordReplay.ApplicationPatchForgotten` | hireos-core-record/src/applications/applications.service.ts:112-118 | wherever an application is put into a status, out of it and into it again, the first patch sent again is answered with the version of now |
| `CoreRecordReplay.AnApplicationPatchIsForgotten` | hireos-core-record/src/applications/applications.service.ts:112-118 | such a run from the empty store: stored with version 2, answered with version 4 |
| `PdfText.TextReadsBack` | hireos-interview/job-Interview-backend/src/intake/package-pdf.ts:3-5 | the hexadecimal text of a line reads back as its UTF-16 text |
| `PdfText.EscapeIsPerCharacter` | hireos-interview/job-Interview-backend/src/intake/package-pdf.ts:26 | three replacements in a row are one replacement per character: no escape is escaped again |
| `PdfText.TargetReadsBackIffCarriable` | hireos-interview/job-Interview-backend/src/intake/package-pdf.ts:26-48 | a link target reads back from its literal string exactly when it is made of bytes and has no bare carriage return |
| `PackagePdf.LookUpFindsObject` | hireos-interview/job-Interview-backend/src/intake/package-pdf.ts:52-58 | under 10^10 bytes, looking object k up in the cross-reference table leads to the byte where `k 0 obj` and its object stand (section 7.5.4 of ISO 32000-1) |
| `PackagePdf.EntryIsTwentyBytesIff` | hireos-interview/job-Interview-backend/src/intake/package-pdf.ts:57 | an entry is 20 bytes exactly when its offset is below 10^10 |
| `PackagePdf.StartxrefPointsAtTable` | hireos-interview/job-Interview-backend/src/intake/package-pdf.ts:55-58 | the number before the end of the file is the byte position of `xref` |
| `PdfReader.StreamObjectReads` | hireos-interview/job-Interview-backend/src/intake/package-pdf.ts:47 | a reader who takes `/Length` bytes of a stream gets its data, and `endstream` follows (section 7.3.8.2) |
| `PdfReader.PageContentReads` | hireos-interview/job-Interview-backend/src/intake/package-pdf.ts:22-24 | the content stream of a page shows exactly the texts of its lines, in order |
| `PdfReader.AnnotReads` | hireos-interview/job-Interview-backend/src/intake/package-pdf.ts:48 | a link whose target is bytes without a carriage return reads back with its target and the rectangle of its line |
| `PdfReader.ObjectReads` | hireos-interview/job-Interview-backend/src/intake/package-pdf.ts:54-58 | from the bytes alone, through the last lines and the table, object k is found and read |
| `PdfReader.RootReads` | hireos-interview/job-Interview-backend/src/intake/package-pdf.ts:56-58 | from the bytes alone the trailer is found after the table, and names the catalogue |
| `PdfDocument.DocumentReadsBack` | hireos-interview/job-Interview-backend/src/intake/package-pdf.ts:29-60 | reading the built file from its bytes, through trailer, table and references, gives all pages in order, the texts of each, and one link for each line whose `href` is not empty, in the order of the lines, on its line and, if it can be carried, with its target |
| `PdfDocument.LinesReadBack` | hireos-interview/job-Interview-backend/src/intake/package-pdf.ts:29-60 | the texts read are those of the lines, all of them and in order |
| `PackagePdf.PagesPartitionLines` | hireos-interview/job-Interview-backend/src/intake/package-pdf.ts:30-32 | the pages are the lines, 48 to a page, the last not empty |
| `PackagePdf.LinksAreLinkedLines` | hireos-interview/job-Interview-backend/src/intake/package-pdf.ts:33 | the links of a page are lines of it whose `href` is not empty, with that target, each once and in order |
| `PackagePdf.LinkedLinesAreLinks` | hireos-interview/job-Interview-backend/src/intake/package-pdf.ts:33 | every line of a page whose `href` is not empty is among its links |
| `PackagePdf.LinkIsListedIff` | hireos-interview/job-Interview-backend/src/intake/package-pdf.ts:33 | a page has a link to a target from a line exactly when that is the line's `href` and not empty |
| `PackagePdf.NoLinesAreTitled` | hireos-interview/job-Interview-backend/src/intake/package-pdf.ts:32 | without lines there is one page with the title |
| `PackagePdf.FileBegins` | hireos-interview/job-Interview-backend/src/intake/package-pdf.ts:52-56 | the file begins with its version, and the table with the free entry |
| `PackagePdf.ReferencesNameTheirObjects` | hireos-interview/job-Interview-backend/src/intake/package-pdf.ts:34-51 | in the object list every number referred to is that of an object of the kind expected: pages, content, fonts, and as annotations exactly the page's links (section 7.3.10) |
| `PackagePdf.Paginate` | hireos-interview/job-Interview-backend/src/intake/package-pdf.ts:30-32 | the loop that cuts lines into pages |
| `PackagePdf.CountLinks` | hireos-interview/job-Interview-backend/src/intake/package-pdf.ts:37 | the number of links on all pages |
| `PackagePdf.NumberPages` | hireos-interview/job-Interview-backend/src/intake/package-pdf.ts:39-46 | the page objects, numbering annotations as it goes |
| `PackagePdf.ListContents` | hireos-interview/job-Interview-backend/src/intake/package-pdf.ts:47 | the content streams |
| `PackagePdf.ListAnnotations` | hireos-interview/job-Interview-backend/src/intake/package-pdf.ts:48 | the annotation objects |
| `PackagePdf.NumberObjects` | hireos-interview/job-Interview-backend/src/intake/package-pdf.ts:34-51 | the whole object list |
| `PackagePdf.WriteFile` | hireos-interview/job-Interview-backend/src/intake/package-pdf.ts:52-58 | the file with its offsets taken as it grows |
| `PackagePdf.BuildPackagePdf` | hireos-interview/job-Interview-backend/src/intake/package-pdf.ts:29-60 | from lines to file |
| `TextLayout.BreakFits` | hireos-interview/job-Interview-backend/src/intake/package-pdf.ts:10-19 | breaking loses no character and keeps every line within the width |
| `TextLayout.FurtherAlong` | hireos-interview/job-Interview-backend/src/intake/package-pdf.ts:13-17 | starting further along a line never helps and costs at most one line more |
| `TextLayout.BreakUsesFewestLines` | hireos-interview/job-Interview-backend/src/intake/package-pdf.ts:10-19 | no way of breaking the text within the width uses fewer lines |
| `TextLayout.ExportersBreak` | hireos-interview/job-Interview-backend/src/intake/package-pdf.ts:7-20 | the lines of either exporter are its text again, no wider than 50 and 48 columns, each begun only because the next character did not fit on the one before |
| `TextLayout.WidthIs` | hireos-interview/job-Interview-backend/src/intake/package-pdf.ts:15-16 | a text takes a column for each character and one more for each outside ASCII |
| `TextLayout.Wrap` | hireos-interview/job-Interview-backend/src/intake/package-pdf.ts:7-20 | `wrap`, proved to be that breaking of the normalized text |
| `TextLayout.WrapRubricLine` | hireos-interview/job-Interview-backend/src/rubric/rubric-export.service.ts:36-44 | the rubric exporter's own loop, proved to be the same breaking |
| `TextLayout.BlocksAreTheLines` | hireos-interview/job-Interview-backend/src/rubric/rubric-export.service.ts:46-54 | blocks are the lines again, cut after every empty line and nowhere else |
| `TextLayout.OnlyBlanksBetween` | hireos-interview/job-Interview-backend/src/rubric/rubric-export.service.ts:47-53 | blocks keep their order, and between two stand only lines without text or link, fewer than 48 |
| `TextLayout.PaddedExactly` | hireos-interview/job-Interview-backend/src/rubric/rubric-export.service.ts:47-53 | blank lines are added exactly where a block would reach over the end of a begun page and fits on one |
| `TextLayout.BlockOnOnePage` | hireos-interview/job-Interview-backend/src/rubric/rubric-export.service.ts:47-56 | a block of at most 48 lines lies on one page of the PDF that is written |
| `TextLayout.PagingAddsOnlyBlanks` | hireos-interview/job-Interview-backend/src/rubric/rubric-export.service.ts:45-55 | every line with text is printed once and in order |
| `TextLayout.PrintedLinesFit` | hireos-interview/job-Interview-backend/src/rubric/rubric-export.service.ts:36-56 | no printed line is wider than 48 columns |
| `TextLayout.ParagraphStands` | hireos-interview/job-Interview-backend/src/rubric/rubric-export.service.ts:36-44 | every paragraph of a rubric stands on lines of its own, after those before it, which together are its text with line ends and tabs as blanks |
| `TextLayout.Flush` | hireos-interview/job-Interview-backend/src/rubric/rubric-export.service.ts:47-53 | one block laid after the lines so far |
| `TextLayout.PaginateBlocks` | hireos-interview/job-Interview-backend/src/rubric/rubric-export.service.ts:45-55 | the loop over the lines |
| `TextLayout.RubricPdf` | hireos-interview/job-Interview-backend/src/rubric/rubric-export.service.ts:36-57 | from paragraphs to the PDF file |
| `CodeLimiter.StepKeepsInv` | hireos-identity/hireos-identity-backend/src/auth/auth.service.ts:66-80 | every step of any number of requests keeps the locks, the limits and the checks already made true |
| `CodeLimiter.RunKeepsInv` | hireos-identity/hireos-identity-backend/src/auth/auth.service.ts:66-80 | so every run does |
| `CodeLimiter.BoundKept` | hireos-identity/hireos-identity-backend/src/auth/auth.service.ts:194-200 | a request admitted when the window ending at it has room leaves every window within the limit |
| `CodeLimiter.EmailLimitsHold` | hireos-identity/hireos-identity-backend/src/auth/auth.service.ts:183-200 | every hour holds at most 5 requests of an email, every 24 hours at most 20, and two are at least 60 s apart |
| `CodeLimiter.IpLimitHolds` | hireos-identity/hireos-identity-backend/src/auth/auth.service.ts:201-208 | every hour holds at most 20 requests of an address |
| `CodeLimiter.JudgeIsRoom` | hireos-identity/hireos-identity-backend/src/auth/auth.service.ts:183-209 | a request is admitted exactly when every limit has room, and a refusal names the first that has not |
| `CodeLimiter.RefusalNamesTheFirst` | hireos-identity/hireos-identity-backend/src/auth/auth.service.ts:190-207 | in every run a refusal names the first limit without room, in the order cooldown, email hour, email day, address hour |
| `CodeLimiter.RefusalWaitIsExact` | hireos-identity/hireos-identity-backend/src/auth/auth.service.ts:190-207 | the wait of a refusal is the exact first time at which the limit that refused has room |
| `CodeLimiter.ReportedCovers` | hireos-identity/hireos-identity-backend/src/auth/auth.service.ts:33-38 | the seconds reported are the fewest that cover the wait |
| `CodeLimiter.OneHolder` | hireos-identity/hireos-identity-backend/src/auth/auth.service.ts:61-68 | two requests never hold the lock of one email or one address together |
| `CodeLimiter.AcceptedAreCounted` | hireos-identity/hireos-identity-backend/src/auth/auth.service.ts:70-79 | the rows the limits count are exactly the accepted requests |
| `CodeLimiter.ArrivalWaits` | hireos-identity/hireos-identity-backend/src/auth/auth.service.ts:55-67 | a request that arrives waits for its email's lock, and nothing else changes |
| `CodeLimiter.RequestsMoveExactly` | hireos-identity/hireos-identity-backend/src/auth/auth.service.ts:66-80 | what each step of a request leads to, and that its row has its email, its address and the time of its record |
| `CodeLimiter.RollBackLeavesNothing` | hireos-identity/hireos-identity-backend/src/auth/auth.service.ts:66-80 | a transaction that fails leaves no row and none of its own locks, and all of the others |
| `CodeLimiter.NoDeadlock` | hireos-identity/hireos-identity-backend/src/auth/auth.service.ts:64-68 | while a request is unfinished some request can take its next step |
| `CodeLimiter.WorkShrinks` | hireos-identity/hireos-identity-backend/src/auth/auth.service.ts:66-80 | every such step brings the end nearer, and a blocked step changes nothing |
| `CodeLimiter.AllFinish` | hireos-identity/hireos-identity-backend/src/auth/auth.service.ts:66-80 | from every reachable state all requests can finish, in at most five steps each |
| `CodeLimiter.CodeService.constructor` | hireos-identity/hireos-identity-backend/src/auth/auth.service.ts:44-49 | starts with no request and no row |
| `CodeLimiter.CodeService.FindRecent` | hireos-identity/hireos-identity-backend/src/auth/auth.service.ts:185-189 | the rows of a key after an instant |
| `CodeLimiter.CodeService.EnforceEmailLimits` | hireos-identity/hireos-identity-backend/src/auth/auth.service.ts:190-200 | the three limits of an email, in the order they are tried |
| `CodeLimiter.CodeService.EnforceRateLimits` | hireos-identity/hireos-identity-backend/src/auth/auth.service.ts:183-209 | all four limits |
| `CodeLimiter.CodeService.Arrive` | hireos-identity/hireos-identity-backend/src/auth/auth.service.ts:55-66 | a new request |
| `CodeLimiter.CodeService.TakeEmailLock` | hireos-identity/hireos-identity-backend/src/auth/auth.service.ts:67 | waits for the email's lock or takes it |
| `CodeLimiter.CodeService.TakeIpLock` | hireos-identity/hireos-identity-backend/src/auth/auth.service.ts:68 | waits for the address's lock or takes it |
| `CodeLimiter.CodeService.CheckLimits` | hireos-identity/hireos-identity-backend/src/auth/auth.service.ts:69 | checks, and on refusal ends the transaction |
| `CodeLimiter.CodeService.RecordRequest` | hireos-identity/hireos-identity-backend/src/auth/auth.service.ts:70-72 | stamps the row |
| `CodeLimiter.CodeService.Commit` | hireos-identity/hireos-identity-backend/src/auth/auth.service.ts:66-80 | makes the row visible and lets go of the locks |
| `CodeLimiter.CodeService.RollBack` | hireos-identity/hireos-identity-backend/src/auth/auth.service.ts:66-80 | a transaction that fails leaves no row and no lock |
| `Sessions.StepKeepsInv` | hireos-identity/hireos-identity-backend/src/sessions/sessions.service.ts:27-81 | every step keeps each stored expiry no later than the exact one, and what requests read and judged true |
| `Sessions.NeverTooLate` | hireos-identity/hireos-identity-backend/src/sessions/sessions.service.ts:47-50 | what the stored row lets in the exact rule lets in, and no expiry is past 30 days from sign-in |
| `Sessions.LetInBeforeExpiry` | hireos-identity/hireos-identity-backend/src/sessions/sessions.service.ts:43-60 | a request that is let in was read unrevoked and is judged before the exact expiry, whatever became of the row since its read |
| `Sessions.NeverMuchTooEarly` | hireos-identity/hireos-identity-backend/src/sessions/sessions.service.ts:55-59 | when no request takes longer than `delay`, a session that its row as stored refuses early would have ended within 5 minutes and one delay, or within two delays |
| `Sessions.RefusedByItsRead` | hireos-identity/hireos-identity-backend/src/sessions/sessions.service.ts:43-50 | a request is refused no more than that before the exact expiry as it was when the request read the row |
| `Sessions.RefusedEarlyOnlyIfOvertaken` | hireos-identity/hireos-identity-backend/src/sessions/sessions.service.ts:43-59 | and no more than that before the exact expiry when it is judged, unless the expiry was pushed since its read by another request |
| `Sessions.AnOvertakenRequestIsRefused` | hireos-identity/hireos-identity-backend/src/sessions/sessions.service.ts:43-59 | a run with a delay of one second in which that happens: a request is refused though the session is live for seven days less a second |
| `Sessions.RevokedIsFinal` | hireos-identity/hireos-identity-backend/src/sessions/sessions.service.ts:43-81 | a revoked session stays revoked, and every use of it was of the row as read no later than its revocation |
| `Sessions.RevocationIsStored` | hireos-identity/hireos-identity-backend/src/sessions/sessions.service.ts:75-77 | signing out revokes that session, at that time if it was not before, and touches nothing else |
| `Sessions.RevocationOfAllIsStored` | hireos-identity/hireos-identity-backend/src/sessions/sessions.service.ts:79-81 | signing out everywhere revokes every session of the user, at that time if it was not before, and touches no other |
| `Sessions.SignedOutEverywhere` | hireos-identity/hireos-identity-backend/src/sessions/sessions.service.ts:43-81 | in every run, after that, each of those sessions stays revoked, and a request that reads it later is not let in, whatever runs in between |
| `Sessions.SignInIsStored` | hireos-identity/hireos-identity-backend/src/sessions/sessions.service.ts:27-34 | a sign-in makes a session of that user, unrevoked, that ends 7 days after the clock reading |
| `Sessions.JudgementIsExact` | hireos-identity/hireos-identity-backend/src/sessions/sessions.service.ts:47-60 | which requests are accepted at once, which have to write first and what, and which leave nothing |
| `Sessions.WriteIsStored` | hireos-identity/hireos-identity-backend/src/sessions/sessions.service.ts:56-59 | the write stores the time and expiry decided, however late, and leaves the other columns and sessions |
| `Sessions.SessionsService.constructor` | hireos-identity/hireos-identity-backend/src/sessions/sessions.service.ts:24 | starts without sessions |
| `Sessions.SessionsService.Create` | hireos-identity/hireos-identity-backend/src/sessions/sessions.service.ts:27-34 | a session whose expiry is counted from a time read before |
| `Sessions.SessionsService.Find` | hireos-identity/hireos-identity-backend/src/sessions/sessions.service.ts:43-46 | the read of `resolve` |
| `Sessions.SessionsService.Judge` | hireos-identity/hireos-identity-backend/src/sessions/sessions.service.ts:47-60 | judges the row as it was read: accepts at once exactly a live session used within five minutes; a live one used longer ago is accepted after its write |
| `Sessions.SessionsService.WriteBack` | hireos-identity/hireos-identity-backend/src/sessions/sessions.service.ts:56-59 | stores what was decided, however late |
| `Sessions.SessionsService.Revoke` | hireos-identity/hireos-identity-backend/src/sessions/sessions.service.ts:75-77 | revokes a session not yet revoked |
| `Sessions.SessionsService.RevokeAllForUser` | hireos-identity/hireos-identity-backend/src/sessions/sessions.service.ts:79-81 | revokes all of a user's |
| `ExpressionText.TextMeansTree` | hireos-interview/docs/prototype/support.js:205-294 | evaluating the text of an expression tree gives the tree's own meaning, for every tree and environment, with any white space around operators, after a negation and inside brackets of either kind |
| `ExpressionText.OperandMeansTree` | hireos-interview/docs/prototype/support.js:211-226 | the same of an operand with white space around it |
| `ExpressionText.CompareMeans` | hireos-interview/docs/prototype/support.js:211-225 | a comparison is cut at its own operator |
| `ExpressionText.PathReads` | hireos-interview/docs/prototype/support.js:263-293 | a path read up to any of its steps has the meaning of that part |
| `ExpressionText.FindsOperator` | hireos-interview/docs/prototype/support.js:248-262 | the first equality outside brackets is the comparison's own |
| `ExpressionText.WrapsWhole` | hireos-interview/docs/prototype/support.js:237-247 | a bracketed text is seen to be bracketed as a whole |
| `ExpressionText.WrapsOnlyStart` | hireos-interview/docs/prototype/support.js:237-247 | a text that only begins with a bracketed one is not |
| `ExpressionText.QuoteMeansItselfIff` | hireos-interview/docs/prototype/support.js:211-234 | a string literal alone means its content exactly when no equality is found in its text |
| `ExpressionText.EqualityInQuote` | hireos-interview/docs/prototype/support.js:248-262 | a literal for which it does not |
| `ExpressionText.CutAtOwnOperatorIff` | hireos-interview/docs/prototype/support.js:248-262 | any text left of an operator, a literal of any content say, leaves the comparison to be cut at that operator exactly when no equality is found in the text and its brackets add up |
| `ExpressionText.KeyClosesIff` | hireos-interview/docs/prototype/support.js:274-285 | any text in the square brackets of a path is closed where it should be exactly when its own square brackets pair up |
| `ExpressionText.GroupWrapsIff` | hireos-interview/docs/prototype/support.js:237-247 | any text in round brackets is seen to be bracketed as a whole exactly when it closes none that it did not open |
| `ExpressionText.BracketInQuote` | hireos-interview/docs/prototype/support.js:248-262 | a literal with a bracket that hides the operator after it |
| `ExpressionCases.WrappedIsInner` | hireos-interview/docs/prototype/support.js:205-210 | on every string: brackets around the whole of it come first |
| `ExpressionCases.FirstEqualityCuts` | hireos-interview/docs/prototype/support.js:211-225 | then the first equality outside brackets, with all that stands on its left and on its right |
| `ExpressionCases.OtherwiseUnary` | hireos-interview/docs/prototype/support.js:226-235 | then a leading `!`, then literals, and a path last |
| `ExpressionCases.BlankIsUndefined` | hireos-interview/docs/prototype/support.js:206-207 | a blank string is undefined |
| `ExpressionCases.FindExactly` | hireos-interview/docs/prototype/support.js:248-262 | on every string the search finds the first equality outside brackets that is not right after `=` or `!` and has something before it, and the whole operator |
| `ExpressionCases.WrapExactly` | hireos-interview/docs/prototype/support.js:237-247 | on every string: brackets wrap the whole exactly when none before the last closes down to nothing |
| `ExpressionCases.CloseExactly` | hireos-interview/docs/prototype/support.js:274-285 | on every string the inner loop finds the bracket that closes, and nothing when none does |
| `ExpressionCases.FalsyIff` | hireos-interview/docs/prototype/support.js:226 | exactly six values count as false |
| `ExpressionCases.ComparisonTable` | hireos-interview/docs/prototype/support.js:215-224 | what each of the four operators gives; `!==` and `!=` are the opposites of `===` and `==` |
| `ExpressionCases.PropertyTable` | hireos-interview/docs/prototype/support.js:266-287 | a property of nothing is nothing |
| `ExpressionCases.NumberIff` | hireos-interview/docs/prototype/support.js:204 | a text is read as a number exactly when it is an optional sign, digits, and an optional point with digits after it |
| `ExpressionCases.NumeralMeans` | hireos-interview/docs/prototype/support.js:231 | and then its value is that of its digits, those after the point as many places down as there are |
| `ExpressionCases.LiteralIff` | hireos-interview/docs/prototype/support.js:227-234 | a text is a literal exactly when it is one of four words, a number, or stands in quotes of one kind |
| `ExpressionCases.NameCharsAre` | hireos-interview/docs/prototype/support.js:203 | the characters of a name |
| `ExpressionCases.StepReads` | hireos-interview/docs/prototype/support.js:269-288 | each step of a path reads a property named by the longest name or number after a point, or by what the closed brackets hold |
| `ExpressionCases.BrokenPath` | hireos-interview/docs/prototype/support.js:271-290 | a path that cannot make its next step is undefined, whatever was read before |
| `ExpressionCases.NamelessPath` | hireos-interview/docs/prototype/support.js:264-265 | and so is one without a name at its beginning |
| `Expression.ParensWrapWhole` | hireos-interview/docs/prototype/support.js:237-247 | the loop computes the scan the proofs are about |
| `Expression.FindTopLevelEquality` | hireos-interview/docs/prototype/support.js:248-262 | likewise |
| `Expression.FindClose` | hireos-interview/docs/prototype/support.js:274-285 | likewise |
| `Expression.Evaluate` | hireos-interview/docs/prototype/support.js:205-207 | `resolve`, which ends on every string because each call is on a shorter one |
| `Expression.EvaluateTrimmed` | hireos-interview/docs/prototype/support.js:208-225 | its brackets and comparisons |
| `Expression.EvaluateUnary` | hireos-interview/docs/prototype/support.js:226-235 | its negation and literals |
| `Expression.EvaluatePath` | hireos-interview/docs/prototype/support.js:263-294 | `resolvePath` |
| `Expression.EvaluateStep` | hireos-interview/docs/prototype/support.js:269-291 | one round of its loop |
| `Offer.StepKeepsInv` | hireos-interview/job-Interview-backend/src/intake/tasks.service.ts:573-720 | every step keeps versions, events and deliveries consistent |
| `Offer.HandoffsAreFit` | hireos-interview/job-Interview-backend/src/intake/tasks.service.ts:669-703 | every hand-off event names an existing version whose frozen decision and two signatures are those checked, all strictly before it |
| `Offer.AttemptsAreSpaced` | hireos-interview/job-Interview-backend/src/intake/tasks.service.ts:685-692 | two attempts with no failed acknowledgement between are more than 5 minutes apart |
| `Offer.VersionsAreDense` | hireos-interview/job-Interview-backend/src/intake/tasks.service.ts:590-603 | versions count from 1 without a gap, neighbours differ, the latest is the present content, and reading unchanged data adds none |
| `Offer.UndecidedAddsNoVersion` | hireos-interview/job-Interview-backend/src/intake/tasks.service.ts:552-603 | as long as nothing is decided, another reason or another person adds no version |
| `Offer.SendFreezes` | hireos-interview/job-Interview-backend/src/intake/tasks.service.ts:669-704 | a hand-off names the version of the package as it is, and adds no version of its own |
| `Offer.LogsOnlyGrow` | hireos-interview/job-Interview-backend/src/intake/tasks.service.ts:599-659 | no version and no event is ever taken back |
| `Offer.AcknowledgedIsFinal` | hireos-interview/job-Interview-backend/src/intake/tasks.service.ts:686-717 | an acknowledged delivery never changes again |
| `Offer.OlderAttemptIsStale` | hireos-interview/job-Interview-backend/src/intake/tasks.service.ts:708-718 | an acknowledgement for a replaced attempt changes nothing, at either of its steps |
| `Offer.IssueIsOrder` | hireos-interview/job-Interview-backend/src/intake/tasks.service.ts:13-21 | `offerTimelineIssue` finds nothing exactly when nothing was sent or everything came strictly before |
| `Offer.StartIsEmpty` | hireos-interview/job-Interview-backend/src/intake/tasks.service.ts:37-42 | a new package has no decision, signature, delivery, version or event, and nothing to review |
| `Offer.HandoffIsExact` | hireos-interview/job-Interview-backend/src/intake/tasks.service.ts:669-704 | a hand-off is made exactly when the package needs no review, is recommended, decided and signed twice strictly before, and nothing is on its way or received; then the delivery is pending under a new attempt, and nothing else of it changes |
| `Offer.InvalidatedIsNeverSent` | hireos-interview/job-Interview-backend/src/intake/tasks.service.ts:669-671 | in every run a package whose job or rubric changed after its decision is never handed off again, since nothing clears its mark |
| `Offer.InvalidationIsExact` | hireos-interview/job-Interview-backend/src/rubric/rubric.service.ts:167 | a package is marked for review exactly when there is a decision |
| `Offer.ConfirmationIsExact` | hireos-interview/job-Interview-backend/src/intake/tasks.service.ts:644-661 | confirming sets and unconfirming clears exactly the signature of its role, freezes and logs the package signed so, and leaves all else |
| `Offer.DecisionIsExact` | hireos-interview/job-Interview-backend/src/intake/tasks.service.ts:471-489 | which decisions are recorded, with what reason, time and version; any other changes nothing |
| `Offer.FreezingIsExact` | hireos-interview/job-Interview-backend/src/intake/tasks.service.ts:590-603 | a new version holds the present content and the time it was frozen at, and there is one exactly when the content is new |
| `Offer.ContentIsExact` | hireos-interview/job-Interview-backend/src/intake/tasks.service.ts:552-596 | what is frozen is the outcome and time of the decision, both signatures and what comes from elsewhere |
| `Offer.AnswerStartsExactly` | hireos-interview/job-Interview-backend/src/intake/tasks.service.ts:708-714 | an answer goes on to its write exactly when its attempt is the last one and is not received twice |
| `Offer.AnswerIsExact` | hireos-interview/job-Interview-backend/src/intake/tasks.service.ts:715-719 | it is written exactly while its attempt is the pending one, as received or as failed with its error |
| `Offer.OfferService.constructor` | hireos-interview/job-Interview-backend/src/intake/tasks.service.ts:37-42 | starts undecided and unsent |
| `Offer.OfferService.SetDecision` | hireos-interview/job-Interview-backend/src/intake/tasks.service.ts:471-489 | records a decision, unless it repeats the last or quotes a wrong version |
| `Offer.OfferService.MaterializePackage` | hireos-interview/job-Interview-backend/src/intake/tasks.service.ts:590-603 | freezes the content if it is new: of the decision its outcome and time |
| `Offer.OfferService.ConfirmPackage` | hireos-interview/job-Interview-backend/src/intake/tasks.service.ts:644-661 | signs or unsigns, freezes and logs |
| `Offer.OfferService.Claim` | hireos-interview/job-Interview-backend/src/intake/tasks.service.ts:686-692 | takes the row for an attempt exactly when its state allows |
| `Offer.OfferService.SendOffer` | hireos-interview/job-Interview-backend/src/intake/tasks.service.ts:669-705 | hands the package off exactly when it is fit and claimable, and otherwise leaves no trace |
| `Offer.OfferService.StartAcknowledgement` | hireos-interview/job-Interview-backend/src/intake/tasks.service.ts:708-714 | the read half of an acknowledgement |
| `Offer.OfferService.FinishAcknowledgement` | hireos-interview/job-Interview-backend/src/intake/tasks.service.ts:715-719 | its guarded write |
| `Screening.StepKeepsInv` | hireos-interview/job-Interview-backend/src/intake/tasks.service.ts:196-273 | every step keeps the counter, the current report and the resolutions in line with what happened |
| `Screening.CurrentIsAReport` | hireos-interview/job-Interview-backend/src/intake/tasks.service.ts:205-224 | the current report is one of the task's, and there is one as soon as there is any |
| `Screening.ResolutionsAreTrue` | hireos-interview/job-Interview-backend/src/intake/tasks.service.ts:263-271 | resolutions carry distinct growing revisions up to the counter, and exactly the reports there were |
| `Screening.AskedExactlyWhenNeeded` | hireos-interview/job-Interview-backend/src/intake/tasks.service.ts:225-229 | a resolution is asked for exactly when a report came after the last one, or two came and there was none |
| `Screening.RepeatChangesNothing` | hireos-interview/job-Interview-backend/src/intake/tasks.service.ts:263-265 | a resolution that was made can be sent again at any time: it changes nothing, and is a replay while nothing happened since |
| `Screening.UnresolvedIff` | hireos-interview/job-Interview-backend/src/intake/tasks.service.ts:224-229 | in every run a report waits for a resolution exactly when it is not current and the last one does not list it |
| `Screening.AttachmentIsExact` | hireos-interview/job-Interview-backend/src/intake/tasks.service.ts:196-216 | in every run attaching a material links it once, and counts it exactly if it is a report; the first report is current |
| `Screening.TriageIsExact` | hireos-interview/job-Interview-backend/src/intake/tasks.service.ts:232-255 | in every run a material is classified exactly where it was linked and of no kind yet, with who did it and when |
| `Screening.ResolutionIsExact` | hireos-interview/job-Interview-backend/src/intake/tasks.service.ts:257-273 | in every run: which resolutions are replayed, which refused and with what, and what any other makes current and lists |
| `Screening.ScreeningService.constructor` | hireos-interview/job-Interview-backend/src/intake/tasks.service.ts:56-58 | a new task has no materials |
| `Screening.ScreeningService.CountReport` | hireos-interview/job-Interview-backend/src/intake/tasks.service.ts:206-211 | the row when one more material counts as a report |
| `Screening.ScreeningService.AttachMaterial` | hireos-interview/job-Interview-backend/src/intake/tasks.service.ts:196-216 | attaches a material once |
| `Screening.ScreeningService.TriageMaterial` | hireos-interview/job-Interview-backend/src/intake/tasks.service.ts:232-255 | classifies a material not yet classified |
| `Screening.ScreeningService.ResolveScreening` | hireos-interview/job-Interview-backend/src/intake/tasks.service.ts:257-273 | makes a report current, replays, or refuses |
| `Calendar.DateUtcReads` | hireos-interview/job-Interview-front/src/lib/zonedTime.ts:44-52 | `Date.UTC` undoes the reading of a date, but for the years 0 to 99 |
| `Calendar.Epoch` | hireos-interview/job-Interview-front/src/lib/zonedTime.ts:44-52 | minute 0 is the first of 1970 |
| `Calendar.NextMinute` | hireos-interview/job-Interview-front/src/lib/zonedTime.ts:44-52 | every minute is followed by the next of the Gregorian calendar, with its months and leap years, for all years |
| `Calendar.YearFormula` | hireos-interview/job-Interview-front/src/lib/zonedTime.ts:44-52 | the day number of a year in closed form |
| `Calendar.DateUtcCarries` | hireos-interview/job-Interview-front/src/lib/zonedTime.ts:44-52 | `Date.UTC` carries days, hours and minutes over, and takes a year of two digits for one of the twentieth century |
| `Calendar.MonthsOfYear` | hireos-interview/job-Interview-front/src/lib/zonedTime.ts:44-52 | and carries months over |
| `Calendar.GregorianIsLawful` | hireos-interview/job-Interview-front/src/lib/zonedTime.ts:44-52 | the Gregorian calendar has the laws the conversion is proved from |
| `ZonedTime.AnswerIsExact` | hireos-interview/job-Interview-front/src/lib/zonedTime.ts:41-60 | gap, ok and overlap mean exactly none, one and two instants of the common era that show the wall time, and name them |
| `ZonedTime.RoundTrip` | hireos-interview/job-Interview-front/src/lib/zonedTime.ts:25-60 | an instant written out and read back is found again, alone or in an overlap, exactly when its year has four digits |
| `ZonedTime.EarlyYearsAreGaps` | hireos-interview/job-Interview-front/src/lib/zonedTime.ts:25-57 | a wall time before the year 1000 is always called a gap |
| `ZonedTime.AnswerIsRightIff` | hireos-interview/job-Interview-front/src/lib/zonedTime.ts:25-60 | an answer is right about whether the clocks stand at the wall time at an instant exactly when the year is 1000 or later or they do not stand there |
| `ZonedTime.EarlyTimesAreCalledGaps` | hireos-interview/job-Interview-front/src/lib/zonedTime.ts:25-57 | every instant of the years 1 to 999 has a wall time that the clocks stand at then and that is called a gap |
| `ZonedTime.EarlyTimesExist` | hireos-interview/job-Interview-front/src/lib/zonedTime.ts:25-57 | such instants: the first minute of each of those years in UTC |
| `ZonedTime.GregorianZone` | hireos-interview/job-Interview-front/src/lib/zonedTime.ts:24-32 | all of this holds of the Gregorian calendar and any whole-minute offsets below a day |
| `ZonedTime.TextIsWall` | hireos-interview/job-Interview-front/src/lib/zonedTime.ts:31-42 | the text of a date has the form of a wall time exactly for years of four digits, and then says the same date |
| `ZonedTime.TextPlaces` | hireos-interview/job-Interview-front/src/lib/zonedTime.ts:31-42 | where each part stands in the text |
| `ZonedTime.BeforeCommonEra` | hireos-interview/job-Interview-front/src/lib/zonedTime.ts:25-38 | years before the common era are shown without their sign |
| `ZonedTime.InvalidIff` | hireos-interview/job-Interview-front/src/lib/zonedTime.ts:41-45 | exactly a text that is no wall time, or an unknown zone, is refused |
| `ZonedTime.FindOffsets` | hireos-interview/job-Interview-front/src/lib/zonedTime.ts:46-53 | the loop over three probes |
| `ZonedTime.FindHits` | hireos-interview/job-Interview-front/src/lib/zonedTime.ts:54-56 | the candidates kept, sorted and once each |
| `ZonedTime.Convert` | hireos-interview/job-Interview-front/src/lib/zonedTime.ts:41-60 | `wallTimeToInstant` |
| `Transcript.MergingCutsIntoRuns` | hireos-interview/job-Interview-backend/src/rubric/summary-contracts.ts:18-32 | merging cuts the lines into consecutive runs, in order, none lost: each of one speaker, joined under the limit, and ended by another speaker or the limit |
| `Transcript.OneSpeaker` | hireos-interview/job-Interview-backend/src/rubric/summary-contracts.ts:22 | all lines of a run are of one speaker |
| `Transcript.RunIsBounded` | hireos-interview/job-Interview-backend/src/rubric/summary-contracts.ts:22-25 | a run of several lines has at most `maxChars` + 1 characters, and more than `maxChars` exactly when a blank joins a last line that filled the limit |
| `Transcript.LimitIsExceeded` | hireos-interview/job-Interview-backend/src/rubric/summary-contracts.ts:22-25 | two lines of one letter under a limit of two make a segment of three |
| `Transcript.LineStands` | hireos-interview/job-Interview-backend/src/rubric/summary-contracts.ts:24 | every line stands in its run's text verbatim, after the line before it |
| `Transcript.OnlySeparatorsBetween` | hireos-interview/job-Interview-backend/src/rubric/summary-contracts.ts:24 | between two lines stands what joins them and nothing else |
| `Transcript.SeparatorIsExact` | hireos-interview/job-Interview-backend/src/rubric/summary-contracts.ts:23-24 | nothing joins two lines where either has a character of the CJK blocks at the join, and otherwise a blank |
| `Transcript.SegmentReads` | hireos-interview/job-Interview-backend/src/rubric/summary-contracts.ts:27-30 | a segment has the id of its first line, and its text is the prefix, the speaker, a colon and the lines at their places |
| `Transcript.UnitsAreUtf16` | hireos-interview/job-Interview-backend/src/rubric/summary-contracts.ts:22 | the limit counts UTF-16 code units |
| `Transcript.IdsStayDistinct` | hireos-interview/job-Interview-backend/src/rubric/summary-contracts.ts:27-30 | different runs keep different ids |
| `Transcript.MergeTranscriptLines` | hireos-interview/job-Interview-backend/src/rubric/summary-contracts.ts:18-32 | the loop, proved to give those runs |
| `Citations.ResolveIsValid` | hireos-interview/job-Interview-backend/src/intake/ai.service.ts:132-136 | what `resolve` returns always supports the quote |
| `Citations.ResolveIsExact` | hireos-interview/job-Interview-backend/src/intake/ai.service.ts:132-136 | a right citation stays, a wrong one goes to the one segment that alone holds its quote, and nowhere when there is none or more than one |
| `Citations.SummaryIsVerifiable` | hireos-interview/job-Interview-backend/src/rubric/summary-contracts.ts:51-62 | after the check every highlight and every concern cites a segment that holds its quote |
| `Citations.SummaryKeepsTheRest` | hireos-interview/job-Interview-backend/src/rubric/summary-contracts.ts:60-62 | a summary that is right is returned as it is; otherwise overview and follow-ups stay, and each list is repaired in its own place |
| `Citations.SummaryIsRepairedOnce` | hireos-interview/job-Interview-backend/src/rubric/summary-contracts.ts:55-62 | repairing a repaired summary, or checking a checked one, changes nothing |
| `Citations.CheckedIsRepaired` | hireos-interview/job-Interview-backend/src/intake/ai.service.ts:127-139 | where every segment has an id, a summary is returned as the repair leaves it, so the check before it changes nothing |
| `Citations.MergedAreNamed` | hireos-interview/job-Interview-backend/src/rubric/summary-contracts.ts:27-30 | segments merged from lines with ids have ids, as those of both results with a repair are |
| `Citations.EntryFate` | hireos-interview/job-Interview-backend/src/rubric/summary-contracts.ts:56-58 | which entries are dropped, which moved, which kept unchanged, and where each stands |
| `Citations.NamedEntryFate` | hireos-interview/job-Interview-backend/src/rubric/summary-contracts.ts:56-58 | where every segment has an id, right entries are kept unchanged and in order, a wrong one goes under the segment that alone holds its quote, and is dropped when there is no such segment |
| `Citations.DebriefIsVerifiable` | hireos-interview/job-Interview-backend/src/rubric/debrief-contracts.ts:32-44 | after the check every citation of a card is of a segment that holds its quote |
| `Citations.DebriefKeepsTheRest` | hireos-interview/job-Interview-backend/src/rubric/debrief-contracts.ts:38-44 | a draft that is right is returned as it is; otherwise its open issues stay and its cards are repaired |
| `Citations.DebriefIsRepairedOnce` | hireos-interview/job-Interview-backend/src/rubric/debrief-contracts.ts:38-44 | repairing the cards of a repaired draft, or checking a checked one, changes nothing |
| `Citations.CardFate` | hireos-interview/job-Interview-backend/src/rubric/debrief-contracts.ts:38-43 | no card moves; which lose their score, which stay as they are, and under which segment each ends |
| `Citations.SplitIsExact` | hireos-interview/job-Interview-backend/src/intake/ai.service.ts:123 | splitting a quote cuts at every line feed and nowhere else |
| `Citations.MatchesIff` | hireos-interview/job-Interview-backend/src/intake/ai.service.ts:120-125 | a quote is accepted exactly when it is not blank and each of its lines stands in the segment, up to white space |
| `Citations.VerbatimMatches` | hireos-interview/job-Interview-backend/src/intake/ai.service.ts:120-125 | anything not blank that stands in a segment verbatim is accepted as a quote of it |
| `Citations.BlankNeverMatches` | hireos-interview/job-Interview-backend/src/intake/ai.service.ts:123-124 | a blank quote is accepted of nothing |
| `Citations.LineCanBeQuoted` | hireos-interview/job-Interview-backend/src/rubric/summary-contracts.ts:13-17 | a transcript line can always be quoted under the segment it was merged into |
| `Citations.ExtractSummary` | hireos-interview/job-Interview-backend/src/intake/ai.service.ts:127-139 | the check and repair around a summary |
| `Citations.ExtractDebrief` | hireos-interview/job-Interview-backend/src/intake/ai.service.ts:127-139 | the check and repair around a debrief draft |
| `Citations.ExtractWhole` | hireos-interview/job-Interview-backend/src/intake/ai.service.ts:140-143 | results without a repair are kept whole exactly when every citation is right |
| `Text.NormalizedContains` | hireos-interview/job-Interview-backend/src/intake/ai.service.ts:120-124 | what stands in a text stands in it after white space is normalized in both |
| `Text.SpacesAre` | hireos-interview/job-Interview-backend/src/intake/ai.service.ts:120 | the twenty-five characters that count as white space |
| `Text.NormalizedIsWords` | hireos-interview/job-Interview-backend/src/intake/ai.service.ts:120 | a normalized text is the words of the text with one blank between them |

Where code and documentation differ, the model follows the code:

- A used idempotency key is looked up only after the row was read, so a request sent again is not always
  answered from the store: not a patch of an application that has the status by now
  (`CoreRecordReplay.ApplicationPatchReplay`, and a run in `AnApplicationPatchIsForgotten`), not a patch of
  a job deleted since (`CoreRecordReplay.JobPatchReplay`, `AJobPatchIsForgotten`), and no deletion
  (`CoreRecordReplay.DeletionReplay`).
- The limit of a merged transcript segment does not count the blank that joins the last line
  (`Transcript.RunIsBounded`, and an input in `Transcript.LimitIsExceeded`).
- Years are not padded when a wall time is shown, so a wall time of the years 1 to 999 is reported as
  skipped by the clocks although they stood at it (`ZonedTime.AnswerIsRightIff`,
  `ZonedTime.EarlyTimesAreCalledGaps`).
- An equality inside a string literal is taken for an operator, and a bracket inside one is counted
  (`ExpressionText.EqualityInQuote`, `BracketInQuote`; the exact conditions are `QuoteMeansItselfIff`,
  `CutAtOwnOperatorIff`, `KeyClosesIff` and `GroupWrapsIff`).
- A request judged on a row that another request has pushed since is refused however long the session
  still lives (`Sessions.AnOvertakenRequestIsRefused`).
- The schema of a candidate patch takes a `source`, for which the table has no column: such a patch is
  refused whole (`CoreRecordEffects.PatchCommitsIff`).
- Nothing clears the review mark of a package, so a decision made after the change does not let it be
  handed off either (`Offer.InvalidatedIsNeverSent`).

## Left out

- ReplayAnswersAsFirst: does not cover application patches, job patches and deletions, for which it is false; `ApplicationPatchReplay`, `JobPatchReplay` and `DeletionReplay` say what they are answered.
- TextMeansTree: in string literals brackets come in pairs, and outside them no equality sign follows `=` or `!`; `QuoteMeansItselfIff`, `CutAtOwnOperatorIff`, `KeyClosesIff` and `GroupWrapsIff` say what happens to a literal that is otherwise. Numbers are exact, where the program rounds to doubles; loose equality and property reads are parameters.
- AnswerIsExact: speaks of the common era only, since a wall time does not name its era.
- LookUpFindsObject: only files under 10^10 bytes, beyond which entries are longer than 20 bytes.
- DocumentReadsBack: under the same bound; of a link whose target is not bytes, or holds a carriage return, only that it is there is promised; fonts are not read.
- NeverMuchTooEarly: only of prompt runs, since a request may take any time between its read and its write, and of the row as stored; `RefusedEarlyOnlyIfOvertaken` is about requests.
- JudgeIsRoom: assumes the rows of one key come in order of their times, which the locks make true of every run.
- Parse jobs: flagging possible duplicates after a résumé was parsed, and the timer that calls `tick`.
- Core Record: role versions (which go with their job), the storing and unlinking of file contents, and the answer formats.
- Codes: what becomes of a code after it was issued: superseding, guessing and consuming it.
- Sessions: tokens, cookies and roles; whether the user and membership are in order is a parameter.
- Packages: who handed a package off, how the frozen content is gathered from other tables, task status, and past versions as they are shown.
- Screening: downloading and reading the materials.
- PDF: fonts and positions beyond the text that the file holds, and the lines of text a package is made of.
- Wall times: what `Intl` knows about zones, and seconds.
- AI results: requests to the provider, and validation against a schema.
- HTTP controllers, guards, mail, meetings, file storage, encryption, pages and translations.
