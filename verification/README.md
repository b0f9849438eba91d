# Verified model of the hotel recommendation server

A Dafny model of the stateful parts of the server, with proofs about all runs
and all inputs. Database tables are maps, sequences and sets; one step is one
committed transaction; the language-model provider, the upstream site, the
clients and the moments at which workers die are arbitrary inputs.

What is modelled, one group of files each:

- **Adaptive onboarding** (`OnboardingTypes`, `OnboardingReadiness`,
  `OnboardingProtocol`, `OnboardingSafety`, `OnboardingTheorems`,
  `OnboardingQuestions`, `OnboardingCompletion`, `OnboardingDeadEnd`,
  `OnboardingService`): the session protocol with answers, edits, retries, skips,
  an adversarial provider, and completion requests that may fail or die. The
  completion gate is computed by loops and proved equal to a declarative predicate.
- **Checkpointed imports** (`Checkpointing`, `CsvImport`, `CsvImportTheorems`,
  `CsvImportRows`, `SentimentImport`, `SentimentImportTheorems`,
  `SentimentStored`): batches that commit together, crashes that roll back to the
  last commit, resumption, and what every row and hotel leaves in the tables.
- **Score table** (`ScoreTable`, `ScoreMeaning`, `Normalization`): the three
  writers of hotel scores, provenance precedence and the bell curve.
- **Keyset pagination** (`Keyset`, `CatalogPaging`) and **ranking** (`Ranking`,
  `RankingTheorems`, `RankingFigures`).
- **Refresh-token families** (`RefreshTokens`), **scrape runs** (`Scraper`),
  **review processing** (`ReviewProcessing`, `ReviewProcessingTheorems`,
  `ReviewMentions`, `ReviewChains`) and the **rate limiter** (`RateLimiter`).
- **JSON Schema relaxation** (`SchemaRelaxation`, `SchemaMeaning`) and the
  **onboarding profile** (`Profile`, `ProfileTheorems`, `ProfileEffects`).
- **Taxonomy keys** (`TaxonomyKeys`).
- Shared facts: `Common`, `Sorting`, `Rounding`, `Reals`.

Code that changes things step by step is a class with methods and loops, proved
against a specification function; the theorems are about that function.

## What the proofs found

- A questionnaire can be declared ready on inferred signals that are never
  stored, after which it refuses both answers and completion. Completion
  succeeds exactly when the stored answers pass the gate by themselves
  (`OnboardingCompletion.CompletesIffReadyAsStored`, `OnboardingDeadEnd.DeadEndIsReachable`).
- A generation whose worker dies leaves a session that only a skip can move,
  exactly when its stored answers do not pass the gate; otherwise a completion
  request completes it (`OnboardingCompletion.AbandonedGenerationIsStuckIff`,
  `OnboardingDeadEnd.AbandonedGenerationIsReachable`).
- A completion whose worker dies leaves a session that was declared ready to a
  skip alone, although its answers pass the gate. `OnboardingCompletion.StuckIff`
  lists all sessions of this kind.
- The aggregate upsert writes the first row's values on every conflict. It is
  right exactly when the conflicting rows repeat the first one
  (`ScoreTable.PropagationIsRightIff`), so a second import of the same
  aggregates gives all of them one score (`ScoreTable.SecondPropagationLevels`).
- A known hotel's whole line is rejected for one bad attribute in five cases:
  two different pairs it names mean one attribute, as an alias and the
  attribute's own name do; a new attribute's slug does not fit its column or is
  taken, as with a new key of 121 to 160 letters; a new category's code is taken;
  a text or number does not fit its column; or an entry's counts do not add up,
  because the text of that error is wider than the column for the kind of an issue
  (`SentimentImportTheorems.StoredIff`, with a failing input each in
  `AnAliasCanRejectAHotel`, `ALongKeyRejectsAHotel`, `ExcessiveCountsRejectAHotel`).
- A chain of review-processing jobs gives up exactly after six errors with only
  deaths of workers between them, as a job that dies is delivered once more with
  the retries it had. It then may leave reviews pending until the next review
  import or operator queues another chain (`ReviewChains.GivesUpIff`, `ReviewChains.GivingUpLeavesPendingIff`).
- A review's status claims repeated mentions that are stored once
  (`ReviewMentions.StoredAsClaimedIff`).
- A commit lost after a page was stored leaves the page in the object store
  twice (`Scraper.PagesAreStoredOnceIff`).
- Signing out with a token that was already replaced, or that has expired, leaves
  the session running (`RefreshTokens.LogoutEndsFamilyIff`).
- The replay of a replaced token is detected exactly until the token expires;
  afterwards it is refused and the family stays alive (`RefreshTokens.ReplayEndsFamily`).
- The rate limiter's exact bound for a sliding interval of one window is twice
  the limit less one (`RateLimiter.TheBoundIsReached`).

## Model

| member | source | states |
|---|---|---|
| OnboardingReadiness.GroupSignalCaptured | app/services/onboarding.py:894-911 | The loop reports a captured group signal exactly when the first answered row of the group-branch topic gives a usable value |
| OnboardingReadiness.ComputeBranchState | app/services/onboarding.py:729-770 | The counters and flags of the loop are the counts, last branch, last group and group signal defined on the whole list of rows |
| OnboardingReadiness.UnansweredCore | app/services/onboarding.py:1008-1019 | Lists, without repetition, exactly the core topics that no answered row covers |
| OnboardingReadiness.LocationIsAnswered | app/services/onboarding.py:1000-1006 | True exactly when some answered row carries the location code |
| OnboardingReadiness.MergeInferred | app/services/onboarding.py:945-969 | After the usable inferred signals are merged, the three flags mean: branch selected, destination matched, group branch satisfied by an answer or a usable signal |
| OnboardingReadiness.CompletionReadiness | app/services/onboarding.py:935-988 | Ready exactly when the declarative gate holds; the blocker list has no repetition and holds a blocker exactly when its own condition holds |
| OnboardingReadiness.ReadyIffUnblocked | app/services/onboarding.py:969-988 | The gate is open exactly when no blocker applies |
| OnboardingReadiness.GroupsAskTheirOwn | app/services/onboarding.py:876-911 | The gate is open only for a travel group it knows, and asks couples, families and friends for an answer or a usable signal of their own branch |
| OnboardingReadiness.DestinationsSelectTheirBranch | app/services/onboarding.py:729-770 | Exactly the words for a coast, mountains, a city or the country select that destination branch |
| OnboardingSafety.UpToIsPrefix | app/repositories/onboarding.py:116-130 | With positions 1..n, keeping the questions up to a position keeps a prefix |
| OnboardingSafety.DeleteAfterKeeps | app/repositories/onboarding.py:116-130 | Deleting behind a position leaves numbered, paired and unrepeated tables |
| OnboardingSafety.MaxPositionIsLength | app/repositories/onboarding.py:107-114 | With positions 1..n the next position is n + 1 |
| OnboardingSafety.ValidatedIsFresh | app/services/onboarding.py:1214-1232 | A validated proposal repeats no stored topic and no normalized prompt |
| OnboardingSafety.PersistAppends | app/services/onboarding.py:541-565 | A validated question is appended under the next position, is open, and leaves the answered rows alone |
| OnboardingSafety.SubmitKeeps | app/services/onboarding.py:357-399 | An accepted answer, edit or retry keeps the session invariant and leaves no question open while generating |
| OnboardingSafety.DecideIsGated | app/services/onboarding.py:402-516 | Against any three replies: finishing needs five answers and a gate that is open on the signals received up to the last call made, persisting needs a valid question and at most eight answers, and failing happens only when the stored answers do not suffice |
| OnboardingSafety.LaterRepliesAreNotRead | app/services/onboarding.py:402-516 | The decision and the number of calls it made depend on the replies to those calls only |
| OnboardingSafety.CommitKeeps | app/services/onboarding.py:541-586 | The closing transaction of a generation keeps the session invariant |
| OnboardingSafety.StepKeeps | app/services/onboarding.py:338-586 | Every transaction keeps the invariant of the session and of the generation in flight |
| OnboardingSafety.RunKeeps | app/services/onboarding.py:338-586 | Every run of transactions, in any order and with any replies, keeps the invariant |
| OnboardingTheorems.ReachableShape | app/services/onboarding.py:376-411 | In every reachable session positions are 1..n, only the last question may be open, none is open while generating or failed, there are at most nine questions, and topics and normalized prompts are pairwise different |
| OnboardingTheorems.ReadyOnlyThroughGate | app/services/onboarding.py:402-516 | Only a closing generation declares readiness, with at least five answers, all questions answered, the gate open on the answers and the signals received up to its last call, and without touching questions or answers |
| OnboardingTheorems.SufficientAnswersFinish | app/services/onboarding.py:402-418 | When the stored answers suffice, every reply whatsoever leads to readiness |
| OnboardingTheorems.SkipIsFinal | app/services/onboarding.py:189-199 | After a skip no later event, not even the generation in flight, changes the session |
| OnboardingQuestions.PersistedAsProposed | app/services/onboarding.py:541-557 | A validated proposal becomes the last question with its own prompt, topic, kind, dimensions and control, the next position and an unused identifier, and carries the location code exactly for the location topic; nothing else changes |
| OnboardingQuestions.ValidIff | app/services/onboarding.py:1207-1233 | In an answered history exactly the proposals are valid that have a topic and a normalized wording of their own and do not ask for the location again |
| OnboardingQuestions.ProposedControlDecides | app/services/onboarding.py:376-399 | The stored question accepts exactly the answers that satisfy the control the provider proposed, stores them, and refuses all others |
| OnboardingQuestions.OpenQuestionTakes | app/services/onboarding.py:357-399 | An open question is answered exactly by what its control admits; the answer is stored, a generation opens, and the destination follows exactly the location question |
| OnboardingQuestions.FirstQuestionIsTheLocation | app/services/onboarding.py:338-353 | A new session asks for the location as free text at position 1 and takes exactly the valid texts, which become the destination |
| OnboardingQuestions.AskedByTheLastReply | app/services/onboarding.py:430-527 | Every question asked is the one of the last reply that was read, within the limits on late questions and clarifications unless it replaces a repeated question that was |
| OnboardingQuestions.ResolvedAsksTheLastReply | app/services/onboarding.py:430-557 | After a generation the session has its old questions, or one more, which is as the last reply that was read proposed it |
| OnboardingQuestions.NewQuestionIsAsked | app/services/onboarding.py:481-527 | While the gate is closed a new question within the limits is asked after one call |
| OnboardingQuestions.RepeatedQuestionIsReplaced | app/services/onboarding.py:492-527 | A repeated question causes one further call, whose question is asked if it is new |
| OnboardingQuestions.ReadyReason | app/services/onboarding.py:402-418 | Stored answers that pass the gate make the session ready without a call, for the reason that fits |
| OnboardingQuestions.ProviderReason | app/services/onboarding.py:434-448 | A provider that declares completion with the gate open makes the session ready for its own reason |
| OnboardingQuestions.FailureKeepsContents | app/services/onboarding.py:1021-1027 | A failed generation changes nothing but the generation state |
| OnboardingQuestions.SkipKeepsContents | app/services/onboarding.py:189-199 | A skip keeps questions, answers and destination and records its reason |
| OnboardingCompletion.AbandonedGenerationIsStuckIff | app/services/onboarding.py:221-249 | With nothing else under way, a session left generating is moved by no call but a skip exactly when its stored answers do not pass the gate; if they do, a completion request completes it |
| OnboardingCompletion.CallsKeep | app/services/onboarding.py:221-411 | Every sequence of protocol steps and completion requests, whether a request stores the profile, fails or dies, keeps numbering, pairing and freshness of the tables, valid answers only, and an open question only where one is asked |
| OnboardingCompletion.AcceptedIff | app/services/onboarding.py:224-246 | A completion request passes its checks exactly when the session is unfinished, is not left in profile generation, and its stored answers pass the gate |
| OnboardingCompletion.FailedCompletionCanBeRetried | app/services/onboarding.py:276-287 | A completion that fails leaves the session accepted again, and a second request that stores the profile completes it |
| OnboardingCompletion.CompletedKeepsReason | app/services/onboarding.py:296-300 | A completed session keeps the reason its questionnaire ended with, or names the profile if there is none |
| OnboardingCompletion.StuckIff | app/services/onboarding.py:221-386 | In every session nothing is under way for, no sequence of calls without a skip changes anything exactly when it is finished, declared ready and left in profile generation or failing the gate as stored, or left generating and failing the gate as stored |
| OnboardingCompletion.AbandonedCompletionIsStuckIff | app/services/onboarding.py:234-249 | A session left in profile generation by a worker that died accepts nothing but a skip exactly when it was declared ready; one still in progress takes a changed answer |
| OnboardingTheorems.EditTruncates | app/services/onboarding.py:386-399 | A changed answer removes the later questions and their answers and keeps every earlier answer |
| OnboardingTheorems.EarlierAnswersSurvive | app/repositories/onboarding.py:116-155 | Deleting behind a question and storing its answer keeps exactly the answers before it, beside the new one |
| OnboardingTheorems.ResendIsIdempotent | app/services/onboarding.py:376-386 | Resending a stored answer does nothing, except after a failure, where it reopens the generation with nothing lost |
| OnboardingTheorems.SignalsAreNeverStored | app/services/onboarding.py:920-932 | In every reachable session no inferred signal is stored, nor read by the generation in flight |
| OnboardingCompletion.CompletesIffReadyAsStored | app/services/onboarding.py:221-336 | With nothing else under way, and whatever became of earlier requests, a completion request completes an unfinished session exactly when it was not skipped, is not left in profile generation, its profile could be stored, and its stored answers pass the gate by themselves; questions and answers stay |
| OnboardingCompletion.UnstoredSignalsDeadEnd | app/services/onboarding.py:920-932 | A session declared ready on signals that are not stored refuses every later answer and every completion, in every run without a skip |
| OnboardingDeadEnd.DeadEndIsReachable | app/services/onboarding.py:433-480 | A concrete run from a new session reaches that dead end |
| OnboardingDeadEnd.AbandonedGenerationIsReachable | app/services/onboarding.py:399-402 | One answer and a worker that dies while it generates leave a new session that only a skip can move (concrete run) |
| OnboardingDeadEnd.AbandonedCompletionIsReachable | app/services/onboarding.py:247-249 | Six answers, a finished questionnaire and a worker that dies while it completes leave a session that only a skip can move, although its stored answers pass the gate (concrete run) |
| OnboardingService.AdaptiveSession.DeleteQuestionsAfter | app/repositories/onboarding.py:116-130 | Removes later questions and their answers in place |
| OnboardingService.AdaptiveSession.AcceptAnswer | app/services/onboarding.py:357-399 | The first transaction of a submission takes the submission step of the protocol: refused, already stored, or a generation opened |
| OnboardingService.AdaptiveSession.AdaptiveComplete | app/services/onboarding.py:221-336 | The checks of a completion request hold exactly when the declarative condition does, and its transactions leave the session as its ending says |
| OnboardingService.AdaptiveSession.DecideNext | app/services/onboarding.py:402-539 | The sequence of gate checks and provider calls ends as the protocol decides |
| OnboardingService.AdaptiveSession.AskQuestion | app/services/onboarding.py:481-539 | A proposed question is accepted, refused, or replaced once after a duplicate |
| OnboardingService.AdaptiveSession.SubmitAdaptive | app/services/onboarding.py:357-539 | An uninterrupted submission equals the two protocol steps one after the other |
| Checkpointing.CommittedIsWorking | app/orchestrators/imports.py:279-282 | What an execution has committed when it dies is a position of its own uninterrupted pass |
| Checkpointing.ResumeReaches | app/orchestrators/imports.py:49-118 | Reading on from a committed position reaches what reading on from the start reaches |
| Checkpointing.CrashesAreInvisible | app/orchestrators/imports.py:49-118 | After any number of crashes the execution that ends stores what one uninterrupted execution stores |
| Checkpointing.StoredIsOnThePath | app/orchestrators/imports.py:49-118 | Everything ever committed is a position of the uninterrupted pass |
| Checkpointing.BatchesAreCommitted | app/orchestrators/sentiment_imports.py:114-154 | Every full batch that was read is committed, and nothing is committed at other lines |
| Checkpointing.LessThanABatchIsLost | app/orchestrators/imports.py:279-283 | A death loses less than a batch of lines |
| CsvImport.CsvImportJob.CreateCity | app/orchestrators/imports.py:120-187 | An unknown city is created once and noted |
| CsvImport.CsvImportJob.UpsertHotel | app/repositories/catalog.py:347-384 | The hotel and its primary image are written over the tables, and the flag tells whether the hotel is new |
| CsvImport.CsvImportJob.StoreHotel | app/orchestrators/imports.py:120-187 | A hotel row is written entirely or refused with the first error in the order of the checks |
| CsvImport.CsvImportJob.UpsertImages | app/repositories/catalog.py:443-462 | The image rows of a review are written over the old ones in order |
| CsvImport.CsvImportJob.StoreReview | app/orchestrators/imports.py:209-244 | A review row is written entirely or refused with the first error in the order of the checks |
| CsvImport.CsvImportJob.ProcessRow | app/orchestrators/imports.py:95-118 | A row takes one import step: effects and counters of a stored row, or a roll-back to the savepoint and the issues of a refused one |
| CsvImport.CsvImportJob.ReadRows | app/orchestrators/imports.py:95-118 | The loop reaches the fold over the lines behind the checkpoint and has committed the state of the last full batch |
| CsvImport.CsvImportJob.Run | app/orchestrators/imports.py:49-93 | One execution: finished jobs are left alone, a death leaves the last commit, an end commits the whole pass |
| CsvImportTheorems.ImportSurvivesCrashes | app/orchestrators/imports.py:49-118 | For any file, batch size and crashes, tables, issues, counters and checkpoint end as after one uninterrupted pass |
| CsvImportTheorems.EveryCommitIsAccounted | app/orchestrators/imports.py:188-207 | At every commit: rows read = checkpoint = inserted + updated + failed, and failed rows = refusal issues |
| CsvImportTheorems.PassIsOverlay | app/orchestrators/imports.py:95-118 | The tables after a pass are the old tables under everything the file writes |
| CsvImportTheorems.SecondPassInsertsNothing | app/repositories/catalog.py:532-554 | Importing the same file again inserts nothing at any row |
| CsvImportTheorems.ReimportChangesNothing | app/repositories/catalog.py:532-554 | Importing the same file again leaves all tables as they are |
| CsvImportTheorems.AcceptedRatingIsExact | app/domain/scoring.py:11-15 | An accepted review has a positive scale, and its normalized rating is exactly proportional; the clamp never cuts |
| CsvImportRows.HotelRowStoredIff | app/orchestrators/imports.py:120-186 | A hotel row is stored exactly when its identifier, name and city are present, its coordinates are in range and its numbers parse; then each column of the hotel under its identifier holds the value of its own cell (folded city, whole parts of count and rank), latitude within 90 and longitude within 180 degrees, and every other hotel and all reviews stay |
| CsvImportRows.HotelImageIsPrimary | app/orchestrators/imports.py:175-186 | The image of a stored hotel joins its images and becomes the primary one |
| CsvImportRows.HotelRefusal | app/orchestrators/imports.py:246-263 | A refused hotel row leaves one issue with its number and identifier, which names a coordinate exactly when that is the first thing wrong |
| CsvImportRows.NewCityIsNoted | app/orchestrators/imports.py:128-137 | A stored hotel of an unknown city leaves one note, and otherwise none |
| CsvImportRows.ReviewRowStoredIff | app/orchestrators/imports.py:209-244 | A review row is stored exactly when its hotel is known and active, it has an identifier, a rating within its scale and a date that parses or none; then each column holds the value of its own cell, and everything else stays |
| CsvImportRows.ReviewImagesArePlaced | app/orchestrators/imports.py:236-243 | The images of a stored review stand at their last places in the row; all other images stay |
| CsvImportRows.ReviewRefusal | app/orchestrators/imports.py:246-277 | A refused review row leaves the issue of the first thing wrong, and two more when its hotel is unknown |
| SentimentImport.ParseCounts | app/domain/sentiment.py:85-108 | Accepted counts are those of the payload, natural numbers whose positive and negative mentions do not exceed the total |
| SentimentImport.ValuesAreMentioned | app/orchestrators/sentiment_imports.py:167-260 | Only attributes with mentions are stored |
| SentimentImport.SentimentImportJob.Classify | app/orchestrators/sentiment_imports.py:167-260 | The loop over categories builds the classification of the whole hotel, or of its entries up to an error of the database |
| SentimentImport.SentimentImportJob.ClassifyAll | app/orchestrators/sentiment_imports.py:189-309 | The loop over the entries of one category builds their classification and stops at an error of the database |
| SentimentImport.SentimentImportJob.ProcessHotel | app/orchestrators/sentiment_imports.py:156-326 | A hotel is stored with taxonomy, aggregates, scores and counters, or leaves nothing but its failure, as it does when a row does not fit its columns or repeats a unique name |
| SentimentImport.SentimentImportJob.ReadLines | app/orchestrators/sentiment_imports.py:114-154 | The line loop reaches the fold over the lines and has committed the state of the last full batch |
| SentimentImport.SentimentImportJob.Run | app/orchestrators/sentiment_imports.py:71-112 | One execution leaves the last commit when it dies and the whole pass when it ends |
| SentimentImportTheorems.CategoriesBalance | app/orchestrators/sentiment_imports.py:167-260 | Nothing a hotel lists is lost: attributes seen plus bad categories = values + zero-mention + issues |
| SentimentImportTheorems.StoredHotelBalances | app/repositories/sentiment.py:172-245 | Processed = inserted + updated = scores applied + scores skipped for every stored hotel |
| SentimentImportTheorems.EveryCommitBalances | app/orchestrators/sentiment_imports.py:126-154 | At every commit and after any crashes: hotels read = matched + failed, processed = inserted + updated = applied + skipped, seen + bad categories = processed + zero-mention + failed + duplicates, unknown hotels = their issues; and the end is that of one pass |
| SentimentImportTheorems.ImportSparesReviews | app/services/aggregate_scoring.py:30-67 | No import touches a score that was computed from reviews |
| SentimentImportTheorems.StoredIff | app/repositories/sentiment.py:59-129 | A hotel is stored exactly when it is known, an algorithm is active, no entry has more positive and negative mentions than mentions, the categories and attributes its new pairs need can be inserted in the order of their first entries (unused code; slug that fits its column and is unused), the rows fit their columns, and no two different pairs it names mean one attribute of the taxonomy before its line |
| SentimentImportTheorems.WithoutAliasesKnownHotelsAreStored | app/repositories/sentiment.py:59-129 | With no aliases in the taxonomy a known hotel is stored exactly when its counts add up, its new names can be inserted and its rows fit; the taxonomy stays sound and without aliases |
| SentimentImportTheorems.AnAliasCanRejectAHotel | app/repositories/sentiment.py:59-129 | An alias onto an attribute the hotel also names directly rejects the whole hotel (concrete input) |
| SentimentImportTheorems.SlugFitsIff | app/domain/sentiment.py:42-54 | A new attribute can be inserted exactly when its key has at most 120 letters if the key is unused, else when category and key fit with their dashes if that slug is unused, else when the hashed slug, which always fits, is unused |
| SentimentImportTheorems.FreshKeysAreRegistered | app/repositories/sentiment.py:97-123 | Pairs of known categories whose new keys are short, unused and pairwise different can all be inserted |
| SentimentImportTheorems.ALongKeyRejectsAHotel | app/models/scoring.py:54 | A new key of 121 to 160 letters rejects the whole hotel, with no alias anywhere (a family of inputs) |
| SentimentImportTheorems.ExcessiveCountsRejectAHotel | app/domain/sentiment.py:103-106 | An entry whose positive and negative mentions exceed its mentions rejects the whole hotel, because its issue does not fit the column for the kind of an issue (concrete input) |
| SentimentStored.NamingsAreBacked | app/orchestrators/sentiment_imports.py:167-260 | What is stored for a pair is the raw key and the three counts of an entry of the hotel under that pair |
| SentimentStored.MentionedPairsAreNamed | app/orchestrators/sentiment_imports.py:167-260 | Every readable entry with mentions has its pair among those to be stored |
| SentimentStored.StoredHotelWrites | app/orchestrators/sentiment_imports.py:288-320 | For each pair that is not refused the aggregate under hotel, attribute, version and window has the counts of the first entry, and a new score counts the same mentions |
| SentimentStored.StoredHotelSparesOthers | app/repositories/sentiment.py:172-245 | Aggregates of other hotels, versions and windows and scores of other hotels stay as they are |
| SentimentStored.StoredHotelCounts | app/orchestrators/sentiment_imports.py:288-326 | Updated are the pairs whose aggregate was there, inserted the others; skipped the scores computed from reviews, applied the others; created exactly the attributes added to the taxonomy |
| SentimentStored.StoredHotelReports | app/orchestrators/sentiment_imports.py:167-260 | Every readable entry is seen, exactly the unmentioned ones are skipped, and each unreadable category and each invalid, uncountable or keyless entry leaves an issue of its own kind on the line |
| SentimentStored.StoredHotelRefuses | app/orchestrators/sentiment_imports.py:256-287 | Each pair that is too wide and each alias of several attributes leaves an issue of its own kind |
| SentimentStored.FailedLineReports | app/orchestrators/sentiment_imports.py:114-154 | A line that stores nothing leaves the tables as they were, one failed hotel, and one issue of the kind that fits: unreadable, unknown hotel, or refused by the database |
| ScoreTable.UpsertLeavesOthers | app/repositories/catalog.py:793-808 | The aggregate upsert changes no key it does not list |
| ScoreTable.PropagationIsRightIff | app/repositories/catalog.py:793-808 | Every row keeps its own values exactly when each conflicting row that may be written has the first row's values |
| ScoreTable.PropagationCanMixUpScores | app/repositories/catalog.py:800-804 | A concrete propagation gives a hotel's second attribute the score of its first |
| ScoreTable.SecondPropagationLevels | app/repositories/catalog.py:800-804 | Propagating the same new aggregates twice levels them all to the first one |
| ScoreTable.AggregateRowIsValid | app/domain/sentiment.py:57-61 | An aggregate with mentions has a score between 0 and 5, twenty times that on the scale of 100, and counts that add up |
| ScoreTable.ReviewScoreIsValid | app/services/scoring.py:171-210 | A recalculated score is a mean between 0 and 5 with counts that add up |
| ScoreMeaning.AggregateOrder | app/domain/sentiment.py:57-61 | Stored aggregate scores, on both scales, are ordered exactly as (positive - negative) / total, across all totals |
| ScoreMeaning.MorePraiseScoresHigher | app/domain/sentiment.py:57-61 | Among equal totals one positive mention more or one negative less scores strictly higher |
| ScoreMeaning.AggregateExtremes | app/domain/sentiment.py:57-61 | The stored score is 5 exactly when all mentions are positive, 0 exactly when all are negative, and 2.5 exactly when they balance |
| ScoreMeaning.AggregateRowCounts | app/services/aggregate_scoring.py:38-50 | The row carries the counts of the aggregate, and the rest are neutral |
| ScoreMeaning.PropagationCounts | app/services/aggregate_scoring.py:64-67 | Skipped are exactly the rows whose score was computed from reviews, applied all others |
| ScoreMeaning.RecalculatedRow | app/services/scoring.py:171-210 | A recalculated row counts the mentions of its attribute by sentiment, and its score times their number is what they contribute together |
| ScoreMeaning.RecalculationLeavesOthers | app/services/scoring.py:171-210 | Rows of other hotels and of attributes without mentions stay |
| ScoreMeaning.SentimentMovesByAPoint | app/domain/scoring.py:18-25 | A mention contributes the rating, a point more if positive and a point less if negative, within the scale |
| ScoreTable.PropagateSparesReviews | app/repositories/catalog.py:793-808 | A review-based row is never overwritten by an aggregate |
| ScoreTable.WritersKeep | app/repositories/catalog.py:781-808 | Under any interleaving of recalculation, propagation and normalization all rows stay valid and no review-based row becomes an aggregate |
| ScoreTable.ScoreStore.RecalculateHotel | app/services/scoring.py:171-210 | The loop writes one review-based row for each mentioned attribute and nothing else |
| ScoreTable.ScoreStore.NormalizePopulation | app/services/scoring.py:59-97 | The loop gives every row of the population its standardized and relative score and nothing else |
| Normalization.ZScoresBalance | app/domain/scoring.py:48-66 | Standardized scores sum to zero |
| Normalization.ZScoresHaveUnitSpread | app/domain/scoring.py:48-66 | With any spread the standardized scores have spread one |
| Normalization.EqualPopulationIsCentred | app/domain/scoring.py:59-66 | The deviation is zero exactly for equal scores, and then every relative score is 3 |
| Normalization.NormalizationBalances | app/services/scoring.py:59-97 | After one normalization the stored standardized scores of the population sum to zero and have unit spread, or the population was equal and every stored relative score is 3 |
| Normalization.NormalizationKeepsOrder | app/services/scoring.py:59-97 | Relative scores lie in [1, 5] and keep the order of the raw scores; nothing but the normalized fields changes |
| ScoreMeaning.RelativeFollowsShare | app/domain/scoring.py:33-36 | Relative scores are ordered strictly as the shares below them, and are 1, 3 and 5 exactly at the shares 0, one half and 1 |
| ScoreMeaning.NormalizationSeparates | app/services/scoring.py:59-97 | Strictly different scores of a population get strictly different standardized and relative scores in the same order |
| ScoreMeaning.BellIsOfThePopulation | app/services/scoring.py:59-97 | The stored mean and deviation are those of the population, and the standardized score is the distance from the mean in deviations |
| Keyset.PageAt | app/repositories/catalog.py:180-214 | Under a cursor at any row, the filtered and limited query is the next slice of the sorted list |
| Keyset.PagesAddUp | app/services/catalog.py:172-191 | Cutting at the limit splits the list into max(1, ceil(n / limit)) pages |
| CatalogPaging.HotelCursorRoundTrip | app/services/catalog.py:172-191 | A hotel cursor decodes to the position it was made from, and only under its own sort or the plain one |
| CatalogPaging.HotelPageAt | app/repositories/catalog.py:132-214 | A page is the next slice of the whole sorted list, with a cursor exactly when something is left |
| CatalogPaging.FollowHotelCursors | app/services/catalog.py:131-204 | Following the cursors returns the whole filtered list in sort order, every hotel once, in max(1, ceil(n / limit)) pages, for all sorts |
| CatalogPaging.HotelListingIsSorted | app/repositories/catalog.py:180-214 | The listing is strictly sorted and has exactly the filtered hotels |
| CatalogPaging.HotelsAreListedByField | app/repositories/catalog.py:180-214 | Down a listing names rise, or ratings fall, or review counts fall with hotels that have none last; ties follow the identifiers |
| CatalogPaging.ReviewCursorRoundTrip | app/services/catalog.py:356-384 | A review cursor decodes to the position it was made from, and only under its own sort |
| CatalogPaging.ReviewPageAt | app/repositories/catalog.py:464-530 | The same for reviews, dated or undated |
| CatalogPaging.FollowReviewCursors | app/services/catalog.py:340-384 | Following the cursors returns all reviews of the filter in order, each once, in max(1, ceil(n / limit)) pages |
| CatalogPaging.ReviewListingIsSorted | app/repositories/catalog.py:512-530 | The review listing is strictly sorted with undated reviews placed as the query places them |
| CatalogPaging.ReviewsAreListedByField | app/repositories/catalog.py:512-530 | Down a listing dates or ratings fall or rise as the sort says, ties follow the identifiers in the same direction, and undated reviews come last |
| Ranking.RankOneHotel | app/domain/ranking.py:94-170 | The loop with its early returns computes the weighted mean, the coverage and the mandatory checks |
| Ranking.GroupRows | app/domain/ranking.py:40-75 | Rows are grouped by hotel, the first row describing the hotel |
| Ranking.RankHotels | app/domain/ranking.py:40-91 | Fails exactly when the weights sum to nothing; otherwise lists exactly the rankable hotels, best first |
| RankingTheorems.GroupIgnoresArrival | app/domain/ranking.py:40-75 | For consistent rows the grouping does not depend on the order of the rows |
| RankingTheorems.RankingIgnoresArrival | app/domain/ranking.py:40-91 | For consistent rows the ranked list does not depend on the order of the rows |
| RankingTheorems.RaiseKeepsRank | app/domain/ranking.py:94-139 | Raising a score keeps the hotel ranked, does not lower its rating and changes nothing but rating and match score |
| RankingTheorems.BetterScoreKeepsPlace | app/domain/ranking.py:82-91 | Raising a score of one hotel never puts it behind a fixed result it was above |
| RankingTheorems.GroupWithBetter | app/domain/ranking.py:40-70 | A raised row leaves every other hotel's group alone, and its own as it was or with that one score raised |
| RankingTheorems.BetterScoreKeepsLead | app/domain/ranking.py:40-91 | In the list made with one row's score raised, its hotel is still ahead of every hotel it was ahead of |
| RankingTheorems.RatingIsBetweenScores | app/domain/ranking.py:135-139 | The rating lies between any bounds of the matched scores, up to rounding |
| RankingTheorems.CoverageIsShare | app/domain/ranking.py:135-139 | The share of the matched weight is positive and at most one, and the rounded coverage stays within [0, 1] |
| RankingFigures.CoverageIsRoundedShare | app/domain/ranking.py:135-166 | Coverage differs from the weight of the preferences with a score by the weight of all preferences by at most half a ten-thousandth |
| RankingFigures.FullCoverage | app/domain/ranking.py:135-166 | A hotel with a score for every preference has coverage 1 |
| RankingFigures.MoreMatchesLeadTies | app/domain/ranking.py:82-91 | Of two listed hotels with one rating, the one that matches all the other matches has no smaller coverage, and is listed first if the coverages differ |
| RankingFigures.RatingIsWeightedMean | app/domain/ranking.py:116-138 | The rating times the matched weight is the weighted sum of the matched scores, up to half a thousandth for each unit of weight |
| RankingFigures.OneScoreIsTheRating | app/domain/ranking.py:116-138 | A hotel whose matched scores are equal is rated by that score to the nearest thousandth, whatever the weights |
| RankingFigures.ListedIff | app/domain/ranking.py:103-136 | Exactly the hotels are listed that have a sufficient score for every mandatory preference and match some weight |
| RankingFigures.ListedAsDescribed | app/domain/ranking.py:40-52 | A listed hotel has the name, rating, review count and rank of one of its own rows |
| RankingFigures.ListedInOrder | app/domain/ranking.py:82-91 | Down the list ratings fall, then coverage, then the figures of the source, and then identifiers rise |
| RankingTheorems.MatchScoreIsExact | app/domain/ranking.py:161-166 | The match score is exactly twenty times the rounded rating |
| RefreshTokens.Revoked | app/repositories/users.py:80-86 | Revoking a family marks all its tokens and changes no other token |
| RefreshTokens.TokenService.Add | app/services/auth.py:146-168 | Stores a token under the next identifier |
| RefreshTokens.TokenService.RevokeFamily | app/repositories/users.py:80-86 | The update statement marks the live tokens of the family in place |
| RefreshTokens.TokenService.Login | app/services/auth.py:74-92 | A sign-in issues the first token of a new family, or nothing |
| RefreshTokens.TokenService.Refresh | app/services/auth.py:94-124 | Expiry, rejection, reuse detection and rotation in the order of the checks; an expired token is refused before the table is read |
| RefreshTokens.TokenService.Logout | app/services/auth.py:126-135 | Only the presented token is revoked, and none if it has expired |
| RefreshTokens.StepKeeps | app/services/auth.py:94-168 | Every call keeps replaced tokens revoked and linked to the next token of their family |
| RefreshTokens.LoginStartsAFamily | app/services/auth.py:74-92 | An accepted sign-in adds one live token of the user with the given expiry in a family no token had, a refused one nothing |
| RefreshTokens.FamilyIsAChain | app/services/auth.py:94-168 | In every reachable table a family is one linear replacement chain; only its last token is unreplaced |
| RefreshTokens.OnlyTheNewestIsLive | app/services/auth.py:94-168 | At most one token of a family is live, and it is the newest |
| RefreshTokens.DeadFamilyStaysDead | app/services/auth.py:105-109 | A family without a live token never gets one, and no token is added to it |
| RefreshTokens.ReuseEndsFamily | app/services/auth.py:105-109 | After detected reuse the family has no live token in any later run |
| RefreshTokens.ReplayEndsFamily | app/services/auth.py:94-124 | A token that was rotated is never rotated again: presenting it later, after any calls, is reuse and ends the family for good exactly when it has not expired by then; otherwise it is refused and changes nothing |
| RefreshTokens.RefreshSucceedsIff | app/services/auth.py:94-124 | A refresh succeeds exactly for a stored, live, unexpired token of the claimed family of an active user; it touches no other token |
| RefreshTokens.LogoutEndsFamilyIff | app/services/auth.py:126-135 | Signing out ends a live family exactly when the presented token is its newest and has not expired |
| RefreshTokens.AnExpiredReplayGoesUnnoticed | app/common/security.py:78-95 | A replaced token presented at its expiry is refused without detection, and its successor still refreshes (concrete run) |
| RefreshTokens.SigningOutCanRevokeNothing | app/services/auth.py:126-135 | After a sign-in and a refresh, signing out with the first token, or with the second after its expiry, changes nothing (concrete run) |
| Scraper.ScrapeRun.Execute | app/orchestrators/scraper.py:38-109 | One worker's life, ended by completion, a failure or death at any point, takes the run's step; the return value tells how it ended |
| Scraper.ScrapeRun.CommitPage | app/orchestrators/scraper.py:80-104 | A page resolves its failure, advances counters and checkpoint by one page and stores its raw object |
| Scraper.ScrapeRun.RecordFailure | app/orchestrators/scraper.py:120-148 | A failure is added, or counted as a retry with its back-off, and the run becomes partial |
| Scraper.ScrapeRun.MarkFailed | app/orchestrators/scraper.py:111-118 | Marks everything but a completed run |
| Scraper.FailureKeeps | app/orchestrators/scraper.py:120-148 | Recording a failure keeps one failure an offset, unresolved only at the current offset, with the back-off of its retries, and counts once |
| Scraper.FailureIsRecorded | app/orchestrators/scraper.py:120-148 | A failing page leaves its code at the current offset, as a new failure or one retry more of the open one |
| Scraper.DelayDoubles | app/orchestrators/scraper.py:134-144 | Retries wait a minute, then twice as long each time, at most an hour |
| Scraper.RunKeeps | app/orchestrators/scraper.py:51-148 | After any orders: next offset = start + pages * size, processed = success + failed, failed = recordings of all failures, at most one failure is unresolved and it is at the current offset, every committed page is stored |
| Scraper.CompletedRunIsWhole | app/orchestrators/scraper.py:97-109 | A completed run has exactly max_pages successes, no unresolved failure, and the raw objects of exactly its offsets |
| Scraper.CompletedIsFinal | app/orchestrators/scraper.py:43-44 | A completed run is never changed again |
| Scraper.RestartIsInvisible | app/orchestrators/scraper.py:51-57 | A worker that dies between pages and its successor do what one worker does |
| Scraper.ResumedRunIsTheSameRun | app/orchestrators/scraper.py:51-57 | The same for whole runs of orders |
| Scraper.EnoughFetchesComplete | app/orchestrators/scraper.py:67-109 | Enough successful fetches complete the run from every reachable state |
| Scraper.OffsetsAreEvenlySpaced | app/orchestrators/scraper.py:51-57 | Page number k is at start + k * size |
| Scraper.ObjectsAreAccountedFor | app/orchestrators/scraper.py:68-104 | In every run the raw objects are one for each committed page and one for each commit lost after storing, offset by offset |
| Scraper.PagesAreStoredInOrder | app/orchestrators/scraper.py:68-104 | While no commit is lost the raw objects are the committed pages in order |
| Scraper.PagesAreStoredOnceIff | app/orchestrators/scraper.py:68-104 | In a completed run each page is stored once and once more for each commit lost at it, hence exactly once each exactly when no commit was lost |
| Scraper.ALostCommitStoresTwice | app/orchestrators/scraper.py:68-104 | A lost commit stores its page twice (concrete run) |
| ReviewProcessing.ReviewWorker.MarkProcessingStatus | app/repositories/catalog.py:577-608 | The upsert counts an attempt and stores the outcome |
| ReviewProcessing.ReviewWorker.MentionModels | app/services/scoring.py:145-150 | Only mentions of known attributes are kept, in order |
| ReviewProcessing.ReviewWorker.AddMentions | app/repositories/catalog.py:715-739 | A mention that is stored already, with the same attribute and evidence, is not stored again |
| ReviewProcessing.ReviewWorker.ProcessOne | app/services/scoring.py:131-163 | One review: its new mentions are stored and its status claims all of them, repeats included |
| ReviewProcessing.ReviewWorker.ProcessReviews | app/services/scoring.py:116-169 | The batch of the first pending reviews is worked off one by one; an error is raised exactly when all of them failed |
| ReviewProcessing.ReviewWorker.RunTask | app/workers/tasks/jobs.py:99-146 | A job that finds another at work ends its chain, a job with an error retries up to its limit, a job that dies is delivered again, and the others are queued again while reviews are pending |
| ReviewProcessing.PendingIsInTable | app/repositories/catalog.py:556-575 | The query lists exactly the reviews that are neither deleted nor settled, in order of identifier |
| ReviewMentions.RunKeeps | app/repositories/catalog.py:556-608 | Under any replies and deaths each review is attempted at most five times and never stores more mentions than its status claims |
| ReviewMentions.StoredAsClaimedIff | app/repositories/catalog.py:715-739 | In every run a completed review claims as many mentions as its reply names known attributes, and stores as many exactly when the reply names none twice with the same evidence |
| ReviewMentions.StoredMentionsAreFound | app/services/scoring.py:116-169 | In every run the mentions stored for a review are exactly the known attributes its completing reply found, each with its evidence |
| ReviewMentions.ARepeatedMentionIsStoredOnce | app/services/scoring.py:145-163 | A reply that names a known attribute twice with the same evidence leaves one mention and a status of two |
| ReviewProcessingTheorems.ExecuteSpends | app/services/scoring.py:116-169 | Every batch lowers the attempts left by at least the replies it gets, and by exactly as many when all of them fail |
| ReviewProcessingTheorems.ExecuteSpendsExactly | app/services/scoring.py:116-169 | Every batch lowers the attempts left by exactly one for each failing reply and by all that were left of each review it completes |
| ReviewProcessingTheorems.ReportedAreCompleted | app/services/scoring.py:116-169 | A batch that reports how many reviews it processed has completed exactly so many, one that reports failure none |
| ReviewProcessingTheorems.EveryReviewIsSettled | app/services/scoring.py:116-169 | As many full batches as there are attempts left settle every review |
| ReviewProcessingTheorems.NoReviewStarves | app/repositories/catalog.py:556-575 | A pending review is attempted after at most as many batches as the reviews before it have attempts left, plus one |
| ReviewChains.FinishedMeansSettled | app/workers/tasks/jobs.py:109-134 | A chain of jobs that finishes leaves nothing pending |
| ReviewChains.ChainEnds | app/workers/tasks/jobs.py:109-146 | Whatever the interpreter replies and however often jobs break or die, a chain ends within six times the attempts left, plus five, plus the number of jobs that died without a reply |
| ReviewChains.ServedChainEnds | app/workers/tasks/jobs.py:109-134 | If every job is served and gets at least one reply, one job more than there are attempts left is enough |
| ReviewChains.RetriesCountErrors | app/workers/tasks/jobs.py:134-146 | The retries of an open chain are the errors just behind it with nothing but deaths between them: exactly so many, and never more |
| ReviewChains.GivesUpIff | app/workers/tasks/jobs.py:134-146 | A chain has given up exactly when six jobs ended with an error, only deaths came between them, and the chain was open before the last of them |
| ReviewChains.GivingUpLeavesPendingIff | app/workers/tasks/jobs.py:134-146 | A chain that gives up leaves reviews pending exactly when more attempts were left than its last job spent: one for each failing reply, and all that were left of each review it completed; a job that ends by itself spent one on every review of its batch |
| ReviewChains.GivingUpLeavesReviews | app/workers/tasks/jobs.py:134-146 | While the interpreter is down a chain stops after six jobs, with reviews pending whenever more than six batches of attempts were left |
| ReviewChains.DeathsKeepTheRetries | app/workers/tasks/jobs.py:134-146 | Five broken jobs, one that dies and another broken job make a chain give up (concrete run) |
| RateLimiter.Limiter.Check | app/common/rate_limit.py:39-53 | Increment and conditional expiry in one step; rejected beyond the limit, and open or unavailable when the store is down |
| RateLimiter.WindowAdmitsItsShare | app/common/rate_limit.py:43-53 | A window lets through exactly min(requests in it, limit) |
| RateLimiter.IntervalAdmitsLessThanTwice | app/common/rate_limit.py:43-53 | Any half-open interval of one window's length lets through fewer than twice the limit |
| RateLimiter.TheBoundIsReached | app/common/rate_limit.py:43-53 | Twice the limit less one is reached, for every limit |
| RateLimiter.KeysAreSeparate | app/common/rate_limit.py:42 | Buckets without a colon give different principals different counters |
| RateLimiter.KeysAreIndependent | app/common/rate_limit.py:42-53 | A key's counter and decisions depend on its own requests only |
| RateLimiter.PrincipalIsLimited | app/common/rate_limit.py:39-53 | The bound holds for each principal under any traffic of the others |
| RateLimiter.WaitingIsEnough | app/common/rate_limit.py:46-53 | A rejected request does not prolong the window, and waiting for the announced time is enough when nobody else calls on the key |
| RateLimiter.ShorterWaitIsNotEnough | app/common/rate_limit.py:43-53 | After a burst at the start of a window every call up to its end is rejected, and the next one is not |
| RateLimiter.VerdictsSay | app/common/rate_limit.py:43-53 | A rejected call is told one window; without the store calls pass or fail as configured and nothing is counted; other keys stay |
| SchemaRelaxation.TransformNode | app/integrations/llm/anthropic.py:99-111 | The walk over keys and items computes the transformation, whatever the order of the keys |
| SchemaRelaxation.ToStrictSchema | app/integrations/llm/anthropic.py:91-121 | The transformed schema with the missing required root fields appended in order |
| SchemaRelaxation.TransformIsStrict | app/integrations/llm/anthropic.py:52-67 | No limiting keyword is left at any depth, and every object schema is closed |
| SchemaRelaxation.StrictIsFixed | app/integrations/llm/anthropic.py:99-111 | A schema is left unchanged exactly when it is strict already |
| SchemaRelaxation.TransformIsIdempotent | app/integrations/llm/anthropic.py:99-111 | Transforming twice is transforming once |
| SchemaRelaxation.ReferencesStillResolve | app/integrations/llm/anthropic.py:99-111 | A path past no removed key leads to the transformed target |
| SchemaMeaning.Relaxes | app/integrations/llm/anthropic.py:91-111 | Under the instance semantics with references, a relaxable schema accepts afterwards every instance it accepted |
| SchemaMeaning.ReducedDocumentAcceptsMore | app/integrations/llm/anthropic.py:91-121 | The same for whole documents with their definitions |
| SchemaMeaning.WantedFieldsAreDemanded | app/integrations/llm/anthropic.py:113-120 | Required root fields add exactly the demand that an object instance has them |
| SchemaMeaning.OpenObjectsAreClosed | app/integrations/llm/anthropic.py:101-102 | An object schema rejects every property its properties do not name, whether or not it did before |
| SchemaMeaning.PropertiesNamedLikeLimitsAreLost | app/integrations/llm/anthropic.py:103-106 | A property named like a limiting keyword is no longer accepted by a closed object |
| Profile.ProfileBuilder.AddEffects | app/services/adaptive_preferences.py:358-369 | Scores and evidence in the two dictionaries stay those of the contributions so far, supported effects only |
| Profile.ProfileBuilder.AddAnswers | app/services/adaptive_preferences.py:303-311 | Each answer contributes its own effects, or those of the question's dimensions when it has none |
| Profile.ProfileBuilder.AddGroups | app/services/adaptive_preferences.py:313-317 | Each named travel group contributes its effects |
| Profile.ProfileBuilder.AddRows | app/services/adaptive_preferences.py:280-317 | The loops over the sorted answers and the groups contribute what the declarative count says |
| Profile.ProfileBuilder.Build | app/services/adaptive_preferences.py:268-333 | The result lists exactly the supported attributes with points, heaviest first |
| ProfileTheorems.ScoreIsSum | app/services/adaptive_preferences.py:358-369 | A score is the sum of its contributions, and its evidence names exactly their sources |
| ProfileEffects.AnswerIsWorth | app/services/adaptive_preferences.py:306-311 | A value with effects of its own gives each supported attribute exactly the points of those effects; any other value, and every travel group and destination branch, exactly those of the dimensions of the question |
| ProfileEffects.AnswersAreWorth | app/services/adaptive_preferences.py:306-311 | The values of one question add up |
| ProfileEffects.GroupIsWorth | app/services/adaptive_preferences.py:315-319 | A travel group gives exactly the points of its own effects |
| ProfileEffects.OneMoreAnswerIsWorth | app/services/adaptive_preferences.py:287-319 | In the whole profile one more answered question that is not about the group changes each attribute by exactly what its values are worth |
| ProfileEffects.WeightIsShare | app/services/adaptive_preferences.py:324 | A weight is a three-hundredth of the points to the nearest ten-thousandth, and 1 from three hundred points on |
| ProfileTheorems.PointsAreAccountedFor | app/services/adaptive_preferences.py:280-317 | The points of an attribute are those of the questions plus those of the distinct groups named, in whatever order they come |
| ProfileTheorems.ProfileIgnoresArrival | app/services/adaptive_preferences.py:280-333 | The profile does not depend on the order of the rows of different questions |
| ProfileTheorems.ProfileIsWellFormed | app/services/adaptive_preferences.py:319-333 | Attributes are listed once, by falling weight, supported, with weights in (0, 1] that are the capped share of their points |
| ProfileEffects.TiesAreListedByName | app/services/adaptive_preferences.py:321-333 | Attributes of equal weight are listed by name |
| ProfileTheorems.AnswersOnlyAdd | app/services/adaptive_preferences.py:280-333 | One more answered question lowers no attribute's points and no weight |
| ProfileTheorems.ListedAttributesStay | app/services/adaptive_preferences.py:319-333 | A listed attribute stays listed after one more answer, with no smaller weight |
| TaxonomyKeys.NormalizeTaxonomyKey | app/domain/sentiment.py:12-30 | The loop over the folded characters builds the key of the label, or refuses a label without one |
| TaxonomyKeys.KeyIsItsWords | app/domain/sentiment.py:16-27 | The key is the label's longest runs of letters and digits joined by single dashes |
| TaxonomyKeys.KeysAreStable | app/domain/sentiment.py:12-30 | A key is the key of itself |
| TaxonomyKeys.SameKeyIffSameWords | app/domain/sentiment.py:12-30 | Two labels share a key exactly when they have the same words |
| TaxonomyKeys.KeyExistsIff | app/domain/sentiment.py:28-29 | A label is refused exactly when it has no letter or digit |

## Left out

- HTTP routing, request validation, settings, logging, metrics, caches, object storage clients, Celery and Redis clients, and the calls to the language model and to the upstream site: input and output; their results are parameters.
- Floating point: ratings, scores and weights are exact reals, rounding is decimal rounding with ties to even on exact values, and the normal distribution function is any monotone function with value one half at zero.
- Unicode: case folding and compatibility normalization are done before the model's texts arrive; prompts and city names are compared after ASCII folding; the taxonomy key loop takes folded characters, and which of them are letters or digits is a parameter; the sentiment import takes keys that are normalized already.
- NaN and infinite numbers in uploaded files, and booleans passed as numbers.
- Static legacy questionnaires, progress figures, timestamps, answer labels and extra keys of an answer document.
- Storage of inferred signals: they count for the decision they arrive with and are lost afterwards, as the session row is read again before it is written.
- OnboardingCompletion.CompletesIffReadyAsStored: the two transactions of a completion request follow each other, with nothing between them and no generation in flight; in the code the second one does not check for a skip again.
- The limit of one clarification as a property of whole sessions: a replacement question is not checked against it in the code.
- Confidence figures of scores, which use logarithms.
- Inactive categories and attributes and display names of the taxonomy; the code of a category key and the short hash in a slug are arbitrary functions.
- SentimentImportTheorems.StoredIff: texts the database cannot encode (the null character, unpaired surrogates) and the limit of the driver on the number of parameters of one statement, which a hotel with well over a thousand attributes would reach.
- CsvImport.CsvImportJob.StoreHotel, CsvImport.CsvImportJob.StoreReview and the other writers of the CSV import: the widths of their columns.
- The explanation attached to a ranked hotel (strengths, matched attributes) and the distance filters of the catalog search.
- CatalogPaging.FollowReviewCursors: no mention filter, because its joins repeat rows.
- Races inside one transaction, concurrent starts of a session, two workers on one scrape run, and the expiry of task locks.
- Signatures, hashes and encodings of tokens and cursors: a presented token is the identifier and family it decodes to, and identifiers are never repeated; an unknown token is taken to be unexpired, and expiry is counted in the units of the claim.
- Scraper.RunKeeps: an upload that fails half-way stores nothing in the model, and error messages are represented by their code.
- ReviewProcessing.ReviewWorker.RunTask: what follows the last batch, the recalculation and normalization of scores, is modelled with the score table.
- ReviewProcessing.ReviewWorker.AddMentions: a stored mention has its review, attribute and evidence; its sentiment and confidence, which are those of the first of several repeats, are not part of it.
- RateLimiter.Limiter.Check: policies arrive parsed, a request that fails after the counters were changed is not modelled, and a counter lives for its window and no longer, counted in milliseconds.
- SchemaMeaning.Relaxes: proved for schemas without alternatives of exactly one, negation and conditionals, without the validating keywords that acceptance does not cover (listed as `SchemaMeaning.Uncovered`), with closed objects, property names that are not limiting keywords, scalar constants and references into the definitions; the two lemmas on open objects and on such names show that the other schemas can become stricter. Reference chains are bounded by a number that is the same before and after.
- SchemaRelaxation.TransformNode: works on values, so the copying of the original document is not expressed.
- Profile.ProfileBuilder.Build: the mapping tables are parameters, the canonical key, values and dimensions of a row arrive derived, and the summary text and the unresolved dimensions are not built. ProfileTheorems.AnswersOnlyAdd assumes that all effects in the tables are positive, as they are.
- User, trip, chat, image and settings records, and the precedence of preference sources: plain reads and writes.
