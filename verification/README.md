# Verified model of the customer import platform

This project models the stateful core of the `fde_foundation` service in Dafny and proves what its parts
only guarantee together. Every SQL transaction is one atomic step on tables held as maps and sequences; the
functions that change tables are methods of classes whose fields are those tables, and each such method is
proved equal to a specification function about which the properties are then proved.

- **Import, outbox, partner.** `Validation`, `RowScan` and `Importer` take a CSV file to customers;
  `ApiStore` reserves, recovers and completes operations; `IntegrationStore` is the outbox;
  `IntegrationWorker` and `PartnerApi` are the two ends of a delivery; `Api` is the request that uses them.
  `Protocol` puts all six tables, the calls and the deliveries in flight and the clock into one step machine
  in which calls and workers may stop for ever at any point, resume late, or never see an answer.
  `ProtocolInvariant` proves one inductive invariant over it, `ProtocolSafety`, `ProtocolLeases`,
  `ProtocolProgress`, `ProtocolReclaims` and `ProtocolLossless` what follows for every run. `Api` and
  `WorkerRounds` show that an undisturbed request and an undisturbed worker round are runs of that machine.
- **Knowledge.** `Chunker` cuts documents, `Injection` proves that no suspicious passage escapes by being
  cut, `Knowledge` and `KnowledgeHistory` cover versions, chunks and permissions over every sequence of
  ingestions, `RankFusion` the merge of two rankings.
- **Answers, limits, actions.** `Rag` is `answer_question` with its cache, `RagSafety` and `RagHistory` what
  its answers promise, `CitedKnowledge` follows a citation back to the ingestion behind it, `Actions` is the
  approval workflow and its audit log. `Limits` bounds limits that are checked first and recorded later;
  `RagCalls` and `ActionCalls` are the calls themselves, interleaved, and carry the bounds over to the tables;
  `RagReplies` gives one request in plain terms, `RagUsage` what traces say of the provider's usage.
- `Common`, `Text`, `Counting` and `Sorting` hold shared vocabulary and proofs about it.

Conventions: an instant is an integer number of microseconds on the database clock, and the clock never runs
backwards; SHA-256 and HMAC are free constructors, so equal digests have equal preimages; identifiers drawn by
`uuid4` are parameters required to be unused; scores are exact reals. Run `dafny verify dfyconfig.toml`.

## Model

| member | source | states |
|---|---|---|
| Common.ProtectedHashSeparates | src/fde_foundation/api_store.py:59-61 | joining namespace and value with a colon never confuses two principals, as long as namespaces hold no colon |
| Text.Strip | src/fde_foundation/validation.py:82-83 | stripping leaves nothing exactly for blank text, and otherwise neither starts nor ends in a blank |
| Text.StripSplits | src/fde_foundation/validation.py:82-83 | stripping takes blanks off the two ends and nothing else |
| Text.NormalizeJoinsWords | src/fde_foundation/validation.py:82-83 | normalised text is the words of the original joined by single spaces |
| RowScan.ScanRows | src/fde_foundation/validation.py:258-322 | the row loop equals the row-by-row specification, counts rows, and stops one past the limit with one further issue |
| RowScan.SeenNamesFirstRow | src/fde_foundation/validation.py:301-314 | `seen_emails` holds exactly the valid emails read so far, each with the first row that has it |
| RowScan.DuplicateNamesFirstRow | src/fde_foundation/validation.py:301-314 | every later row with a valid email already seen is reported, naming the first row with that email |
| RowScan.RowsArePartitioned | src/fde_foundation/validation.py:316-322 | each scanned row is recorded or reported, never both, and `valid_rows` counts the records |
| RowScan.ScanFindsNothing | src/fde_foundation/validation.py:258-322 | no issue is found if and only if every row is valid by itself and emails are pairwise distinct; then all rows are kept, numbered 2, 3, … |
| RowScan.IssuesAreFaults | src/fde_foundation/validation.py:271-320 | every fault of every row is reported at its row, every later duplicate naming the first row with its email, and nothing else is |
| RowScan.IssuesInRowOrder | src/fde_foundation/validation.py:258-320 | issues come in the order of their rows |
| Validation.HeadersAccepted | src/fde_foundation/validation.py:162-208 | the three header tests together accept exactly the permutations of the expected columns |
| Validation.ValidateCsv | src/fde_foundation/validation.py:211-349 | the file-level branches in their order: unreadable, too large, header, rows, decoding or CSV error; records only without issues |
| Validation.AcceptedIffClean | src/fde_foundation/validation.py:211-349 | a file is accepted if and only if it is clean by a definition without the loop; then total = valid = number of records and emails are distinct, so the importer cannot collide with itself |
| Validation.ColumnsBecomeFields | src/fde_foundation/validation.py:86-142 | which column becomes which field: names and source as words joined by single spaces, source and email case-folded, phone and email stripped |
| Validation.EmailShapeIsAddress | src/fde_foundation/validation.py:19 | the email pattern accepts exactly a local part, one at sign and a domain with a full stop inside, without blanks |
| Validation.FaultsDecided | src/fde_foundation/validation.py:86-159 | each fault of a row occurs exactly when its field breaks its rule: required, at most 254, 80, 50 characters, printable, address or E.164 phone |
| Validation.FaultsInOrder | src/fde_foundation/validation.py:271-299 | a row has at most one fault for each field, in the order extra values, email, names, phone, source |
| Validation.EmailDecided | src/fde_foundation/validation.py:86-103 | a row counts under its folded email exactly if that is an address of at most 254 characters |
| Validation.HeaderDecided | src/fde_foundation/validation.py:162-208 | each header issue occurs exactly when columns repeat, one of the five is missing, or another is there |
| Validation.ReadingDecided | src/fde_foundation/validation.py:211-349 | the single issue of a file that is unreadable, above 10485760 bytes or broken in its header; otherwise how rows are counted, when the file-level issues occur, that they come last, and that a file with issues yields no records |
| Validation.RowIssuesDecided | src/fde_foundation/validation.py:258-349 | which row issues the result of a whole file holds |
| Importer.CustomerStore.ConflictIssues | src/fde_foundation/importer.py:99-115 | the loop reports the conflicts of the specification in record order |
| Importer.ConflictsAreDisagreements | src/fde_foundation/importer.py:99-115 | a conflict is reported for exactly those records whose stored customer differs |
| Importer.CustomerStore.InsertCustomers | src/fde_foundation/importer.py:163-181 | inserting new emails succeeds if and only if they are distinct, and then adds each under its batch |
| Importer.CustomerStore.ImportValidatedRecords | src/fde_foundation/importer.py:118-232 | tables and result after one import transaction, with rollback on conflict or uniqueness failure |
| Importer.CustomerStore.ImportFile | src/fde_foundation/importer.py:235-247 | validation first; an invalid file never reaches the tables |
| Importer.InsertedValues | src/fde_foundation/importer.py:163-181 | existing customers stay as they are; every new record is stored with its values under its batch |
| Importer.ImportKeepsBooks | src/fde_foundation/importer.py:131-202 | customers number the sum of inserted counts, every batch accounts for its own customers and inserted + existing = rows, and one batch per file, before and after |
| Importer.AllOrNothing | src/fde_foundation/importer.py:131-202 | an accepted import leaves every record of the file stored with its values; a rejected one leaves all tables unchanged |
| Importer.ImportOutcome | src/fde_foundation/importer.py:131-202 | which of the outcomes occurs, decided by known file, disagreement and nothing else |
| Importer.ImportReports | src/fde_foundation/importer.py:131-202 | counts and issues of each outcome; a conflict carries one issue for each stored customer with other values, in row order, and nothing else |
| Importer.ReimportIsNoOp | src/fde_foundation/importer.py:134-145 | importing an accepted file again reports `already_imported` and changes nothing |
| ApiStore.OperationStore.ReserveOperation | src/fde_foundation/api_store.py:91-159 | insert, recovery or replay as one transaction, keeping actor and key unique |
| ApiStore.OperationStore.CompleteOperation | src/fde_foundation/api_store.py:162-220 | result and notification are written together, only by the attempt that still owns the operation |
| ApiStore.ReservationDecided | src/fde_foundation/api_store.py:104-159 | created, recovered or replayed, each if and only if the stored row says so; lease 360 seconds, attempt number up by one on recovery, all other rows untouched |
| ApiStore.MismatchChangesNothing | src/fde_foundation/api_store.py:125-152 | a used key leaves the table alone if and only if the body differs, the request is finished, or its lease still runs; then the stored row is replayed |
| ApiStore.CompletionDecided | src/fde_foundation/api_store.py:162-220 | a result is written exactly by the owning attempt, field by field, and an accepted one queues one pending notification with these counts unless there is one |
| ApiStore.RetryAfterSuffices | src/fde_foundation/api.py:242-254 | waiting Retry-After suffices if and only if the lease ends within the recovery lease on the answering clock; no shorter whole number of seconds would do; always 1 to 360 |
| Api.CreateImport | src/fde_foundation/api.py:852-914 | order of reserve, import and complete, and the answer on each path |
| Api.ResponseShowsRow | src/fde_foundation/api.py:884-912 | 409 for a reused key if and only if the stored request differs, changing nothing; otherwise the stored operation for this key and file; exactly with 202 the least sufficient Retry-After at the answering instant |
| Api.ServiceIsRun | src/fde_foundation/api.py:863-912 | one uninterrupted request is a run of the protocol; interleaved ones are its runs by construction |
| Api.OkMeansImported | src/fde_foundation/api.py:884-912 | however requests, crashes and recoveries interleave, an answer of 200, be it a replay or formed after completion, means that the file of this request is imported completely with counts that add up and a notification queued, and stays so in every later state |
| Api.AnswerShowsRow | src/fde_foundation/api.py:884-912 | every answer shows the row stored at that moment, of an operation for the file of the request, with the least sufficient Retry-After exactly while processing |
| Api.AnswerCodes | src/fde_foundation/api.py:229-239 | in every reachable interleaving an answer is 200 exactly for an accepted operation, 202 exactly while processing, 422 exactly for a finished one whose file is not clean, 409 exactly for one that met a customer with other values, 503 exactly for one that failed otherwise |
| Api.ImportStepDecided | src/fde_foundation/importer.py:118-247 | which status the import step of a call gives, decided by clean file, known file, contradicted customer and the fate of the transaction |
| Api.NewRequestAnswered | src/fde_foundation/api.py:852-914 | an undisturbed request under an unused key is answered 200 exactly if its file is clean and either known or contradicted by no customer, 409 and 422 exactly otherwise; 200 for a new file leaves all its records stored |
| IntegrationStore.OutboxStore.EnqueueCompletedImport | src/fde_foundation/integration_store.py:65-100 | at most one event per operation; a repeated enqueue returns the first one |
| IntegrationStore.OutboxStore.ClaimNextEvent | src/fde_foundation/integration_store.py:103-148 | the claimed row is an earliest claimable one not locked, leased out until now + leaseSeconds with only status, attempt number and lease changed; nothing is claimed only if there is none |
| IntegrationStore.ClaimDecided | src/fde_foundation/integration_store.py:112-126 | which rows a claim may take: of those available and either pending or abandoned and not locked, one that comes first by availability, then by creation |
| IntegrationStore.OutboxStore.MarkDelivered | src/fde_foundation/integration_store.py:151-172 | succeeds if and only if the attempt number still owns the row; a stale attempt changes nothing |
| IntegrationStore.OutboxStore.MarkFailedAttempt | src/fde_foundation/integration_store.py:175-224 | pending with backoff or dead letter, only for the owner; a stale attempt changes nothing |
| IntegrationStore.BackoffDoubles | src/fde_foundation/integration_store.py:188-191 | the delay starts at the base, doubles with each attempt up to the cap, and is never zero |
| PartnerApi.PartnerStore.RecordPartnerDelivery | src/fde_foundation/partner_api.py:115-152 | receipt lookup, attempt counter and simulated failure in one transaction |
| PartnerApi.CanonicalTextFaithful | src/fde_foundation/integration_worker.py:92-93 | the rendered JSON text says everything: two payloads have equal texts if and only if they are equal |
| PartnerApi.BodyTells | src/fde_foundation/integration_store.py:76-86 | which value of the payload stands under which name of the body |
| PartnerApi.NamesAscend | src/fde_foundation/integration_worker.py:92-93 | the nine names of the body come in ascending order |
| PartnerApi.OneReceiptHoweverOften | src/fde_foundation/partner_api.py:123-152 | n deliveries of one body: fails exactly the simulated number of times, then one receipt, then only recognised duplicates |
| IntegrationWorker.DeliveryClassified | src/fde_foundation/integration_worker.py:102-140 | through settlement: a stale holder changes nothing; the owner's event ends delivered exactly on 2xx, waits (between base and largest delay) exactly after a transient failure below the limit, is given up otherwise; payload, attempt number and other events stay |
| IntegrationWorker.AnswerSettles | src/fde_foundation/integration_worker.py:160-179 | partner and worker fit together: delivered if and only if the partner has the receipt for this body, retried exactly while it has none below the limit, given up at once on another body; 409 or 503 is recorded accordingly |
| IntegrationWorker.ProcessOne | src/fde_foundation/integration_worker.py:160-179 | claim, deliver, settle on an intact network: outbox and partner tables afterwards |
| WorkerRounds.RoundIsRun | src/fde_foundation/integration_worker.py:160-179 | such a round is a run of the protocol: claim, receive, settle |
| ProtocolInvariant.StepKeeps | src/fde_foundation/api_store.py:162-220 | every step of every transaction, under crashes, stalls, late resumption and lost answers, keeps the eleven-part invariant |
| ProtocolInvariant.ReachableOk | src/fde_foundation/integration_worker.py:160-177 | the invariant holds in every reachable state |
| Protocol.FateDecided | src/fde_foundation/importer.py:203-247 | tables and result of an import whose transaction commits, fails, or commits unseen |
| ProtocolSafety.AcceptedMeansImported | src/fde_foundation/importer.py:131-200 | an accepted operation's own file is in exactly one batch and all its records are customers; its counts are those of the file |
| ProtocolSafety.ReceiptMeansImported | src/fde_foundation/partner_api.py:123-152 | a receipt at the partner implies an outbox row with that body, an accepted operation with those counts, and the imported file behind it |
| ProtocolSafety.DeliveredMeansReceived | src/fde_foundation/integration_store.py:153-172 | `delivered` implies a receipt; an honest worker never meets a body conflict |
| ProtocolSafety.OneEventPerAcceptedOperation | src/fde_foundation/api_store.py:203-217 | an operation is accepted if and only if exactly one outbox row exists for it |
| ProtocolSafety.OneImportPerFile | src/fde_foundation/importer.py:134-145 | at most one operation per file ends `imported` |
| ProtocolSafety.CustomersAreConserved | src/fde_foundation/importer.py:183-200 | customers = sum of batches' inserted counts, batch by batch; operations together never report more insertions than there are customers |
| ProtocolSafety.RunExtends | src/fde_foundation/api_store.py:185-208 | no run undoes anything: results, terminal events, payloads, receipts, batches and customers stay, tokens only grow |
| ProtocolSafety.OneFinisher | src/fde_foundation/integration_store.py:165-172 | each attempt number has one holder; a row is finished if and only if exactly one holder finished it |
| ProtocolSafety.OvertakenStaysPowerless | src/fde_foundation/integration_store.py:208-224 | a holder that lost its token never gets it back, in any run |
| ProtocolSafety.ReplayIsFaithful | src/fde_foundation/api_store.py:125-152 | after any run the same key leads to the same operation, another body changes nothing, a finished result replays unchanged |
| ProtocolSafety.WaitingSuffices | src/fde_foundation/api.py:242-254 | who waits Retry-After and repeats recovers the operation, unless it is done or someone else recovered it |
| ProtocolLeases.LeaseProtectsEvent | src/fde_foundation/integration_store.py:112-131 | before its lease ends a claimed event is changed by nobody but its own delivery |
| ProtocolLeases.ClaimLeasesOut | src/fde_foundation/integration_store.py:127-146 | a claim leases just this row out until leaseSeconds from now, to a delivery that carries the row as it then is |
| ProtocolLeases.ClaimHolds | src/fde_foundation/integration_store.py:112-131 | in every run that ends before leaseSeconds are over the claimed row is as the claim left it and claimable by nobody, unless its own delivery settled it |
| ProtocolLeases.ClaimEnds | src/fde_foundation/integration_store.py:112-131 | from that instant on an event that nobody settled can be claimed by any new delivery |
| ProtocolLeases.LeaseProtectsOperation | src/fde_foundation/api_store.py:126-138 | before its lease ends a reserved operation is recovered by nobody and finished only by its own call |
| ProtocolProgress.EventMoves | src/fde_foundation/integration_store.py:103-224 | an event changes only by a claim or by its owner's settlement |
| ProtocolProgress.AttemptsAccounted | src/fde_foundation/integration_store.py:127-133 | over any run, attempts = retries + reclaims + one while not pending, and the row changes exactly as often as that allows |
| ProtocolProgress.LimitHoldsIff | docs/integration-discovery.md:47 | over any run from the empty system an event is tried at most as often as the limit says if and only if nobody takes it over after its last attempt |
| ProtocolProgress.AttemptsBounded | src/fde_foundation/integration_store.py:186-204 | attempts = retries + reclaims + one while not pending, at most the limit + reclaims; pending implies below the limit; at most 2 * limit + reclaims changes in all |
| ProtocolReclaims.LimitCanBePassed | src/fde_foundation/integration_store.py:118-129 | from the empty system, one accepted file and workers that crash lead to any number of attempts at its notification |
| ProtocolReclaims.SixAttemptsOfFive | src/fde_foundation/integration_store.py:118-129 | a concrete configuration and run with five attempts allowed and six made |
| ProtocolProgress.OvertakingStep | src/fde_foundation/integration_store.py:111-126 | while an event waits, nothing new gets ahead of it, and a claim of another pending event removes one that was ahead |
| ProtocolProgress.OvertakingIsBounded | src/fde_foundation/integration_store.py:111-133 | over any run, claims that overtake a waiting event number at most the pending events ahead of it plus the reclaims |
| ProtocolLossless.LosslessOutcome | src/fde_foundation/integration_store.py:186-204 | with f simulated failures and nothing lost: delivered on attempt f + 1 if f is below the limit, else dead letter at the limit; never before the sum of the f backoffs |
| ProtocolLossless.LosslessRunsFinish | src/fde_foundation/integration_worker.py:160-179 | every run that lost nothing so far can go on to end a pending event without loss |
| Chunker.ChunkText | src/fde_foundation/knowledge.py:93-111 | refused exactly when the normalised text is empty or too long; otherwise the loop's chunks are the specified ones |
| Chunker.LineEndReplaced | src/fde_foundation/knowledge.py:94 | a carriage return and line feed become a line feed, whatever stands around them |
| Chunker.OtherTextStays | src/fde_foundation/knowledge.py:94 | text without that pair keeps its line ends |
| Chunker.BlankRunSqueezed | src/fde_foundation/knowledge.py:94 | each maximal run of spaces and tabs becomes one space |
| Chunker.RefusedIff | src/fde_foundation/knowledge.py:94-96 | refused exactly if the normalised text is empty or longer than 100000 characters |
| Chunker.WindowsAreWellCut | src/fde_foundation/knowledge.py:100-104 | a window that is not the last ends right after the last line feed, or full stop before a space, that lies in its first 800 characters beyond offset 400, and is 800 long if there is none |
| Chunker.WindowsAreUnique | src/fde_foundation/knowledge.py:97-110 | tiling and these cuts determine the windows |
| Chunker.ChunksFollowWindows | src/fde_foundation/knowledge.py:105-107 | the chunks are the stripped texts of the windows in order, one for each that is not blank |
| Chunker.WindowsTile | src/fde_foundation/knowledge.py:98-110 | windows start at the beginning, end at the end, are at most 800 long, and neighbours overlap by exactly 120 |
| Chunker.WindowsRebuildText | src/fde_foundation/knowledge.py:98-110 | dropping 120 characters from each later window and concatenating gives the normalised text back |
| Chunker.WindowsAreFew | src/fde_foundation/knowledge.py:98-110 | each window starts at least 282 after the previous one: at most 1 + (n - 121) / 282 windows |
| Chunker.ChunksAreFew | src/fde_foundation/knowledge.py:93-111 | the same bound on the chunks of a document |
| Chunker.ChunksAreStripped | src/fde_foundation/knowledge.py:105-107 | every chunk is non-empty, at most 800 long and has no blank at either end |
| Chunker.PassageInOneChunk | src/fde_foundation/knowledge.py:93-111 | any passage of at most 121 characters that starts and ends visibly lies inside one single chunk |
| Chunker.PassageBoundIsTight | src/fde_foundation/knowledge.py:93-111 | there is a text with a passage of 122 characters that no chunk contains |
| Injection.FlaggedDocumentHasFlaggedChunk | src/fde_foundation/knowledge.py:22-25 | a flagged document has a flagged chunk, although blanks are collapsed and the text is cut in between |
| Injection.FlaggedIffPhrase | src/fde_foundation/knowledge.py:22-25 | a text is flagged if and only if it holds one of four verbs and, after at most 40 characters of the same line, one of four targets, in any case |
| Knowledge.KnowledgeStore.IngestDocument | src/fde_foundation/knowledge.py:128-256 | refuses, reuses the stored document, or adds the next version, and grants the readers |
| Knowledge.KnowledgeStore.AddVersion | src/fde_foundation/knowledge.py:170-240 | retires earlier versions, inserts the next one active, its chunks and its permissions |
| KnowledgeHistory.VersionsAreNovelties | src/fde_foundation/knowledge.py:158-207 | over any ingestions, version v of a source is its v-th distinct content, versions are exactly 1..n, and exactly version n is active |
| KnowledgeHistory.OneActiveVersion | src/fde_foundation/knowledge.py:182-189 | a source with any content has exactly one active document, the newest |
| KnowledgeHistory.ContentsStayUnique | src/fde_foundation/knowledge.py:157-169 | no two documents share owner, source and content |
| KnowledgeHistory.DocumentsRemember | src/fde_foundation/knowledge.py:142-207 | every stored document was created by one ingestion and still says its owner, source, title, content and whether that content is suspicious |
| KnowledgeHistory.IngestionActivatesOnlyNovelty | docs/knowledge-retrieval-contract.md:55-56 | ingesting makes a content active if and only if it is new to its source or already was: an edit back to old content makes no new version and reactivates nothing |
| KnowledgeHistory.OldContentStaysInactive | src/fde_foundation/knowledge.py:165-189 | an instance: a, then b, then a again leaves b active and a inactive |
| KnowledgeHistory.ChunksAreComplete | src/fde_foundation/knowledge.py:208-230 | every document has exactly the chunks of its content, numbered 0..k-1, each flagged as its own text is |
| KnowledgeHistory.FlaggedDocumentShows | src/fde_foundation/knowledge.py:149-212 | a document stored as suspicious has a stored chunk that is |
| KnowledgeHistory.PermissionsAreGrants | src/fde_foundation/knowledge.py:231-240 | a principal may read a document if and only if some ingestion of that content named it: permissions only accumulate |
| KnowledgeHistory.PermissionsReplacedIff | docs/knowledge-retrieval-contract.md:12-13 | ingesting replaces the permissions, as the contract says, if and only if no earlier reader is missing from the request |
| KnowledgeHistory.LeftOutReaderStays | src/fde_foundation/knowledge.py:231-240 | an instance where it does not: a reader left out the second time still reads |
| RankFusion.Combine | src/fde_foundation/knowledge.py:325-331 | the dictionary has exactly the chunks of both lists, each with its ranks, score and similarity |
| RankFusion.RetrieveChunks | src/fde_foundation/knowledge.py:259-362 | fails exactly on a blank query or a limit outside 1..20; otherwise returns the first `limit` of the union by score and identifier |
| RankFusion.CandidatesDecided | src/fde_foundation/knowledge.py:285-323 | which rows enter the merge: the first 20 of each search that the mode asks for, of the lexical one only if there are terms |
| RankFusion.HitsDecided | src/fde_foundation/knowledge.py:285-362 | each hit has the ranks that its rows have among those candidates, scores 0.5 / (60 + rank) for each, and hits come by falling score, then by identifier |
| RankFusion.LeftOutDecided | src/fde_foundation/knowledge.py:285-362 | a chunk among the candidates is left out only if the limit is reached by chunks that come before it |
| RankFusion.TopIsUnique | src/fde_foundation/knowledge.py:361-362 | the two lists determine the result |
| RankFusion.RanksComeWithScores | src/fde_foundation/knowledge.py:333-360 | a rank is present exactly with its score or similarity, and both are those of the row at that rank |
| RankFusion.BetterRanksScoreHigher | src/fde_foundation/knowledge.py:336-338 | no worse in both ranks and better in one gives a strictly higher score |
| RankFusion.BothBeatOne | src/fde_foundation/knowledge.py:336-338 | with 20 candidates a side, a chunk in both lists precedes any chunk in one, whatever the ranks |
| RankFusion.BothComeFirst | src/fde_foundation/knowledge.py:325-362 | chunks found by both searches precede all others in the result and none is left out in their favour |
| Sorting.SortedAscends | src/fde_foundation/knowledge.py:361 | the sort arranges hits in strictly ascending order of the key |
| Limits.WindowsAreBounded | src/fde_foundation/rag.py:231-277 | with limit L, c calls at once and weights up to m, no minute (or day) ever records more than L - 1 + m * c |
| Limits.SequentialIsExact | src/fde_foundation/rag.py:238-252 | for sequential callers no minute records more than L requests |
| Limits.BoundIsReached | src/fde_foundation/rag.py:238-252 | the bound is reached by some run, for every L, c, m and either window |
| Rag.RagStore.AnswerQuestion | src/fde_foundation/rag.py:415-640 | checks, cache, retrieval, budget, generation, verification, trace and store in their order, for all tables and instants |
| Rag.RagStore.CachedAnswer | src/fde_foundation/rag.py:304-373 | what is served, and the trace it leaves; nothing recorded when nothing is served |
| Rag.RagStore.StoreCachedAnswer | src/fde_foundation/rag.py:376-412 | stores until now + ttl, nothing for zero, an error for a ttl out of range |
| Rag.Verify | src/fde_foundation/rag.py:565-607 | the loops keep each cited id once, in order of first mention, refuse anything outside the evidence, and cite the matching hit |
| Rag.CollectEvidence | src/fde_foundation/rag.py:456-474 | the sufficient hits of the retrieval, sorted by the four-part key |
| RagReplies.QuestionHits | src/fde_foundation/rag.py:457-466 | the hits behind an answer: at most eight, of both searches, with the ranks and scores of their rows |
| RagReplies.QuestionLeavesOut | src/fde_foundation/rag.py:457-466 | a chunk that a search found is missing only behind eight that come before it |
| RagReplies.EvidenceDecided | src/fde_foundation/rag.py:158-165 | evidence is every hit with a lexical score above zero or a similarity of at least 0.35, ordered by lexical score, similarity, score and identifier |
| RagReplies.AnswerDecided | src/fde_foundation/rag.py:474-607 | the uncached reply for every behaviour of the provider: refusal text, draft with its citations in order of first mention, or the first 3000 characters picked from the strongest evidence |
| RagReplies.LimitsDecided | src/fde_foundation/rag.py:231-277 | which limit values are off or invalid, and that a request is refused exactly when the last 60 seconds hold that many traces, or the day so far that many tokens, of its principal |
| RagReplies.LookupDecided | src/fde_foundation/rag.py:304-373 | a stored row is served exactly while it is fresh, of a known status, and cites distinct chunks all readable now |
| RagReplies.RememberedIsServed | src/fde_foundation/rag.py:376-412 | an answer remembered at t is served under its key, and no other, exactly until t + ttl to those who may read what it cites |
| RagReplies.RequestDecided | src/fde_foundation/rag.py:415-640 | one request from first check to reply: which of the branches is taken, in their order, and exactly what trace and cache row it leaves |
| RagReplies.TokensAreRecorded | src/fde_foundation/rag.py:570-614 | a request that gets a reply appends one trace, and its tokens are what the provider reported for the draft, refused or not |
| RagSafety.EvidenceIsAuthorized | src/fde_foundation/rag.py:158-165 | evidence is exactly the sufficient hits, strongest first, each shown as stored and readable by the principal |
| RagSafety.DraftIsVerified | src/fde_foundation/rag.py:565-607 | a draft survives if and only if it is supported and cites something, and only evidence; citations are its ids in order of first mention |
| RagSafety.FreshIsSound | src/fde_foundation/rag.py:446-640 | answers cite distinct chunks, at least one, all readable and quoted as stored; refusals are the safe text without citations; degraded only if allowed |
| RagSafety.DegradedCitesStrongest | src/fde_foundation/rag.py:519-525 | a degraded answer is 1 to 3000 characters, citing exactly the strongest evidence |
| RagSafety.CountMeansAll | src/fde_foundation/rag.py:324-337 | the number of authorised rows equals the number of citations if and only if these are distinct and each is authorised |
| RagSafety.ServedIffAuthorized | src/fde_foundation/rag.py:315-341 | a remembered answer is served, unchanged, exactly while it is not expired and everything it cites is readable now |
| RagHistory.ServedWasWritten | src/fde_foundation/rag.py:304-412 | what the cache serves is what the last write for that principal and question computed, unexpired and still authorised |
| RagHistory.EveryAnswerIsSound | src/fde_foundation/rag.py:446-607 | every answer of every history is proper and cites only what its reader may read at that moment |
| RagHistory.RespondIsServedOrFresh | src/fde_foundation/rag.py:415-640 | a request is answered from the cache as it is or afresh and remembered; failures leave the cache alone |
| RagHistory.CacheIsTransparent | src/fde_foundation/rag.py:280-412 | with limits off and the knowledge steady, cached and uncached replies differ if and only if a degraded answer is served to a caller who does not allow one; never for a fixed setting |
| RagCalls.TracesPerMinute | src/fde_foundation/rag.py:231-252 | calls of `answer_question` interleaved transaction by transaction, at most c of one principal open: no minute ever holds more than L - 1 + c of its traces, and no more than L for c = 1 |
| RagCalls.TraceBoundIsReached | src/fde_foundation/rag.py:238-252 | some run of calls reaches that bound, for every L and c |
| RagCalls.RunProjects | src/fde_foundation/rag.py:168-277 | every run of calls, seen from one principal, is an allowed run of checks and records, against the request limit and against the token budget |
| RagCalls.RespondIsRun | src/fde_foundation/rag.py:415-640 | an undisturbed `answer_question` is such a run: same tables, same reply |
| RagCalls.TokensPerDay | src/fde_foundation/rag.py:255-277 | under the same interleavings no day holds more than B - 1 + c * m tokens of one principal, if no call takes more than m |
| RagUsage.TracedTokensAreReported | src/fde_foundation/rag.py:570-614 | in every run of interleaved calls the tokens traced for a principal are the sum of what the provider reported for its traced calls |
| RagUsage.TokenBoundIsReached | src/fde_foundation/rag.py:255-277 | the bound on tokens is tight: some run takes exactly B - 1 + c * m in a day, with services that find only readable chunks |
| CitedKnowledge.AuthorizedIsNewest | src/fde_foundation/knowledge.py:276-284 | whatever was ingested, a readable chunk is a piece of the newest content of its source, opened to this reader by some ingestion |
| CitedKnowledge.AnswersCiteNewest | src/fde_foundation/rag.py:596-607 | answers cite only such chunks, under their own document, index and source |
| Actions.ActionStore.EnforceActionRateLimit | src/fde_foundation/actions.py:123-143 | an error outside 1..1000, zero included; refused exactly when the last minute is full |
| Actions.ActionStore.CreateActionRequest | src/fde_foundation/actions.py:146-186 | a pending action with the digest of its arguments and its first audit event |
| Actions.ActionStore.ApproveAction | src/fde_foundation/actions.py:198-241 | the checks in their order, and row and audit event written together |
| Actions.ActionStore.ExecuteAction | src/fde_foundation/actions.py:244-292 | the checks in their order, and row and audit event written together |
| Actions.CreationDecided | src/fde_foundation/actions.py:146-186 | a request is stored as planned, pending, with its digest and instant, and one event names its requester |
| Actions.ApprovalDecided | src/fde_foundation/actions.py:215-238 | approval succeeds if and only if someone else's action is pending, or was approved by this approver; each error exactly when; repeating changes nothing; the new row and the one event, with the approver as actor, are given outright |
| Actions.ExecutionDecided | src/fde_foundation/actions.py:261-289 | anyone may execute an approved action, once; repeating changes nothing; the new row and the one event, with the executor as actor, are given outright |
| Actions.AuditIsComplete | src/fde_foundation/actions.py:146-292 | in every history the log of an action is the beginning of proposed, approved, executed that its status says, with requester and approver as actors and one digest; the executor is named by `LogNamesExecutor` |
| Actions.AuditIsDeeds | src/fde_foundation/actions.py:176-289 | the log of a history is the list of what was done, in order, each under the name of who did it |
| Actions.LogNamesExecutor | src/fde_foundation/actions.py:276-289 | the third event of an executed action names the executor of the one step that turned it from approved to executed |
| Actions.ExecutedMeansTwoPeople | src/fde_foundation/actions.py:198-292 | an executed action was approved by someone other than its requester, for the very arguments proposed |
| Actions.RunEvolves | src/fde_foundation/actions.py:223-285 | requester and arguments never change, approvals and executed actions are final, the log only grows |
| ActionCalls.RequestsPerMinute | src/fde_foundation/actions.py:123-186 | checks, creations, approvals and executions interleaved, at most c calls of one requester open: no minute ever holds more than L - 1 + c of its requests, and no more than L for c = 1 |
| ActionCalls.RequestBoundIsReached | src/fde_foundation/actions.py:130-143 | some run reaches that bound, for every L and c |
| ActionCalls.RunProjects | src/fde_foundation/api.py:681-704 | every such run, seen from one requester, is an allowed run of checks and records whose log counts what the table counts |

## Where documents and code disagree

- `docs/knowledge-retrieval-contract.md:12-13` says that ingesting replaces a document's permissions; the code
  (`src/fde_foundation/knowledge.py:231-240`) only adds. The model follows the code; `PermissionsReplacedIff`
  says when the two coincide, `LeftOutReaderStays` is an instance where they do not.
- `docs/knowledge-retrieval-contract.md:55-56` says that an edit creates a new version and deactivates the one
  before. An edit back to a content that the source had earlier reuses its old, inactive document
  (`src/fde_foundation/knowledge.py:157-169`). `IngestionActivatesOnlyNovelty` says that novelty is exactly what
  decides, `OldContentStaysInactive` is an instance.
- `docs/integration-discovery.md:47` says that after five failed attempts an event is a dead letter and is not
  retried for ever. An attempt whose worker dies is taken over without a look at the attempt limit
  (`src/fde_foundation/integration_store.py:118-129`). `LimitHoldsIff` says that the limit holds exactly while no
  event is taken over after its last attempt; `LimitCanBePassed` and `SixAttemptsOfFive` give runs from the
  empty system in which it does not.

## Left out

- SQL text, connections, time limits, locks other than row locks, schema checks and Alembic migrations: a
  transaction is one atomic step, and unique keys are invariants of the tables.
- A transaction that fails for any reason but conflict is a choice of the step machine (`Fate`), including a
  commit whose confirmation is lost; `database_error` may then hide a committed import, so only accepted
  implies committed is proved.
- HTTP, multipart upload and its size limit, JWT, signatures and timestamps of webhooks, settings, signals,
  process supervision, logging.
- `FOR UPDATE SKIP LOCKED` is a set of locked rows that a claim passes over; which rows are locked is arbitrary.
- `operation_json_response` reads the clock of the API process, claims read that of the database;
  `WaitingSuffices` is about one clock for both, `RetryAfterSuffices` about any two.
- Case folding, printability and digit classes of Unicode, and the CSV reader, are parameters of `Validation`.
- Bodies are hashed as sequences of named members, which `CanonicalTextFaithful` shows to be as good as hashing
  their text; how identifiers and instants are spelled is a parameter, required to be injective and free of
  characters that need escaping.
- ImportOutcome: failures of the database other than uniqueness are not part of this contract; they are the
  `Fate` of a `RunImport` step, under which every invariant of the protocol is proved.
- ServiceIsRun: covers a request whose steps are consecutive; for interleaved requests, which are steps of the
  protocol themselves, `OkMeansImported` and `AnswerShowsRow` say what their answers mean.
- `RagCalls` and `ActionCalls` take as given how many calls of one principal are open at once and, for the
  token budget, how many tokens one call takes at most: the source bounds neither.
- TokenBoundIsReached: for unlimited requests (`requests_per_minute` zero); under a request limit the two limits
  together may keep a principal below that bound.
- The wording of issues (`message`, `correction`) and the column `error_codes`, which only lists their codes.
- Embeddings, text ranking, cosine distance, metadata filters and `lexical_query`: the two ranked lists are
  arbitrary, except that they hold each chunk at most once and only authorised ones as stored.
- Floating point: scores and similarities are exact; sorting by rounded scores may order near-equal ones otherwise.
- Fusing the two lists of 20 is not claimed to equal fusing the full rankings, and does not.
- The provider and the sentence picked by the local generator are arbitrary functions; a cited string that is
  the text of no chunk is an identifier outside the evidence. Errors of the provider other than refusal and
  unavailability are not modelled.
- A cached refusal cites nothing, so it is served until it expires even if a later grant would allow an answer.
- Chunk identifiers in `Knowledge` are named after document and place; `CitedKnowledge` relates them to the
  numbered ones of retrieval by an arbitrary map.
- `ingest_document` looks for existing content before it takes its advisory lock; two concurrent ingestions of
  one new content are decided by the unique key and one of them fails, which is not a step of the model.
- The limits bound records by the instant at which they are written; the time between a trace's `now()` and its
  commit is not modelled.
- Days for the token budget begin at multiples of 24 hours of the model's clock, not in a configurable zone.
- Rejected and expired actions: no operation of the source produces them.
- `evaluation.py`, `operations.py`, `observability.py`, the OpenAI adapters, `DeterministicActionPlanner`,
  backup, release and diagnostics: they would add only easy members.
