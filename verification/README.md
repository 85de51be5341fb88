# A model of the run engine, its receipts and its tool loop

This project models parts of King AI Ops Hub in Dafny and proves properties of the model. `dafny verify dfyconfig.toml`
checks all of it. Nothing here runs the TypeScript or the C.

Code that changes things step by step is modelled by methods with loops, or by classes whose fields the methods update,
and each such method is proved against a function. The properties are lemmas about those functions, over every input,
every run or every order of events. What a component cannot see is a parameter: providers, clocks and jitter, Unicode
NFC, rounding of literals, SHA-256, regular expressions over review blocks, other writers, and failures of single calls.

## Parts

- **Run engine** (`Provider`, `ReviewParser`, `Engine`, `EngineSession`, `EngineShape`, `EngineOutput`, `EngineResume`,
  `EngineHistory`, `EngineCrash`, `EngineUsage`, `EngineMachine`, `EngineExamples`, `Pricing`): the machine primary, review, revision,
  consolidation with bounded retries over a durable store. A crash is a prefix of the list of events of an attempt; a
  history is any list of attempts that crash anywhere.
- **Strict JSON** (`JsStrings`, `JsonGrammar`, `StrictJson.dfy`, `JsonExact`, `StrictParser.dfy`, `JsonValues`): the
  grammar of RFC 8259 as syntax trees, the parser on suffixes of the text, the parser object with its index, and the
  proof that both are the same and accept exactly the strict language. Strings are sequences of UTF-16 code units.
- **Canonical JSON and receipts** (`Sorting`, `Canonical`, `CanonicalOrder`, `CanonicalText`, `CanonicalLaws`,
  `CanonicalSame`, `CanonicalFaithful`, `CanonicalReading`, `CanonicalPrinted`, `ReceiptCanonical`, `ReceiptVerify`): the canonicalizer, the normal form its text
  stands for, the laws receipt ids and signatures rest on, and the receipt verifier.
- **Migrations** (`IntSort`, `Migration`, `MigrationLaws`, `MigrationVerdict`, `Gate`, `GateLaws`): the migration-state detector, the
  pre-migration gate, the signer's migration facts and the runtime migration set.
- **Receipt publishing** (`Publish`): the create-only write loop, and any number of publishers over one store with
  ambiguous writes that may land late.
- **Guest file writer** (`Utf8`, `GuestTarget`, `GuestWriter`): the streaming UTF-8 check, the target name check and the
  worker's system calls among other writers.
- **Tool loop** (`ToolLoop`, `ToolLoopLaws`, `ToolLoopTurns`), **untrusted text** (`WrapUntrusted`), **markdown blocks** (`Markdown`) and
  **screen wake lock** (`WakeLock`).

## Where the code and its statements part

Each of these is a lemma that says exactly when the stated property holds.

- A resumed run continues the uninterrupted one unless the store holds a failed primary, which is dispatched again, or a
  failed review whose kept reply shows its cut-off only in the stop reason, which a checkpoint drops
  (`ResumeIsFaithfulExactly`, with `FailedPrimaryIsDispatchedAgain` and `CutOffReviewTurnsIntoReject`).
- An empty revision is not shown, yet work is extracted from it (`ShownBodyIsActedOn`, with
  `EmptyRevisionHidesPrimary`).
- The second review call is documented to have more room; it has not from 32,768 tokens on (`ReviewRetryRoom`). The tool
  loop's retry has not from 32,000 on, and above that it has less (`RetryRoom`).
- `0e5` is exactly zero and refused by the strict parser, whose policy is stated for nonzero literals only
  (`NumericPolicyExact`).
- The canonicalizer prints lone surrogates, big integers and `__proto__` names that the strict parser refuses or drops
  (`CanonicalRoundTrip`). Its header says keys are ordered by UTF-16 unit (`src/lib/canonical.ts:11`); the code, and the
  model, order them by code point.
- The price lookup finds inherited object properties such as `constructor` and then throws
  (`CostForUsageNeverUnderBills`).
- A paused reply that carries a tool use is sent back without a result (`HistoryIsComplete`, with
  `PausedToolUseStaysOpen`).
- The title in front of a wrapped text is not sanitized (`OneBoundary`).
- The markdown block loop never ends on a line such as `# a`, carriage return, `b` (`LoopEndsExactly`).

The price fallback for unknown models compares output rates only. With the shipped table that never under-bills
(`CostForUsageNeverUnderBills`); `FallbackNeverUnderBills` says exactly when another table would.

## Model

| member | source | states |
|---|---|---|
| EngineSession.Session.Record | src/orchestration/engine.ts:455-465 | numbers and persists one step; its precondition, met at every call, is what makes the step-budget throw unreachable |
| EngineSession.Session.Drain | src/orchestration/engine.ts:335-352 | whether a stream showed text, and its last final response |
| EngineSession.Session.Attempt | src/orchestration/engine.ts:333-366 | one attempt seen as a reply or as a fault with or without text shown |
| EngineSession.Session.CallWithRetry | src/orchestration/engine.ts:307-389 | the retry loop sends exactly the requests, and ends as, the specification of a call says |
| EngineSession.Session.GuardedCall | src/orchestration/engine.ts:490-509 | the fail-closed boundary first, then the durable intent, then the call |
| EngineSession.Session.ObtainPrimary | src/orchestration/engine.ts:483-509 | checkpoint replayed without a call, else dispatched |
| EngineSession.Session.ObtainReview | src/orchestration/engine.ts:572-651 | checkpoint, else recorded failure, else a call with one retry in the same step after an unusable reply |
| EngineSession.Session.ObtainRevision | src/orchestration/engine.ts:707-766 | checkpoint, else recorded failure, else a call |
| EngineSession.Session.ConsolidatePhase | src/orchestration/engine.ts:783-852 | the outcome, the consolidated text and the extracts of the last step |
| EngineSession.Session.RevisionPhase | src/orchestration/engine.ts:697-780 | at most one revision, only on `revise`, then consolidation |
| EngineSession.Session.ReviewPhase | src/orchestration/engine.ts:554-696 | the review step and everything after it |
| EngineSession.Session.ExecuteRun | src/orchestration/engine.ts:451-853 | the whole run leaves exactly the events, steps and ending of the run specification |
| EngineShape.EveryRunHasShape | src/orchestration/engine.ts:451-465 | every returned run has consecutively numbered steps in one of four shapes, a revision exactly after a well-formed `revise`, and the review outcome its steps justify |
| EngineOutput.ResultIsRebuiltFromSteps | src/orchestration/engine.ts:391-449 | the result is reproducible from the recorded steps and the outcome alone |
| EngineOutput.ResultIsComplete | src/orchestration/engine.ts:391-449 | every finished run shows the banner over the primary, or the answer with the recorded verdict, the stripped review and its one note behind it; work is taken from the revision, or else the primary |
| EngineMachine.RunIsTheMachine | src/orchestration/engine.ts:307-853 | the run is what a machine does that takes one step for one event, with each condition of the calls, retries, refusals, replays, records and the ending stated on that step |
| EngineMachine.ObservationIsExact | src/orchestration/engine.ts:333-366 | an attempt showed text exactly if a delta came, and its reply is the last final response |
| EngineMachine.ErrorsClaimByKind | src/types/provider.ts:160-188 | which errors claim that nothing ran |
| EngineMachine.PersistWritesOnce | src/domain/tasks/runner.ts:824-930 | what recording a step writes, and that it writes once |
| EngineOutput.UnmetReviewLeavesDraft | src/orchestration/engine.ts:418-431 | an unmet required review yields the banner over the primary body, no revision, and work from that body only |
| EngineOutput.ShownBodyIsActedOn | src/orchestration/engine.ts:817-821 | work is extracted from the body that is shown, exactly unless an empty revision hides a nonempty primary |
| EngineExamples.EmptyRevisionHidesPrimary | src/orchestration/engine.ts:817-821 | a run whose revision comes back empty: the primary is shown and the work is taken from the empty text |
| EngineOutput.ReviewRetryRoom | src/orchestration/engine.ts:67-74 | the retry budget stays in its bounds, and is more exactly below the ceiling |
| EngineResume.UnusableAfterReplay | src/orchestration/engine.ts:78-87 | a replay never makes a usable review unusable; it hides an unusable one exactly when only the stop reason showed it |
| EngineResume.PrimaryReplays | src/orchestration/engine.ts:484-489 | a recorded primary is replayed without a call, as the same step |
| EngineResume.ReviewReplays | src/orchestration/engine.ts:573-595 | a recorded review, succeeded or conclusively failed, is replayed without a call, and exactly when as the same step |
| EngineResume.RevisionReplays | src/orchestration/engine.ts:708-736 | a recorded revision, succeeded or conclusively failed, is replayed without a call, as the same step |
| EngineResume.ResumeRefinesRun | src/orchestration/engine.ts:167-198 | after a crash behind any recorded step, the resumed run replays those steps, then logs, records and returns exactly what the uninterrupted run did |
| EngineResume.ResumeIsFaithfulExactly | src/orchestration/engine.ts:174-198 | it does so if and only if the store holds no failed primary and no hidden cut-off |
| EngineHistory.NeverResendsWhatMayHaveRun | src/orchestration/engine.ts:366-386 | over every history of crashing attempts, a step is requested again only after a proof of non-execution with nothing shown, or as the one review retry |
| EngineHistory.RunWalks | src/domain/tasks/runner.ts:948-989 | every attempt over every store follows the durable protocol: intent before dispatch, one open call, record before the next step |
| EngineHistory.EveryReplyIsBilledOnce | src/domain/tasks/runner.ts:824-930 | over every history with no dispatch unresolved, the persisted usage is that of all replies ever received |
| EngineCrash.FirstStepsDependOnFirstAnswers | src/orchestration/engine.ts:467-545 | the first n steps depend on the answers for those steps only |
| EngineCrash.AttemptExtendsCut | src/domain/tasks/runner.ts:993-1032 | an attempt over a cut of a run leaves a longer cut of one uninterrupted run |
| EngineCrash.CrashesAreOneRun | src/orchestration/engine.ts:167-185 | any history of cleanly resumed crashes leaves a cut of one uninterrupted run |
| EngineCrash.FinishedHistoryIsOneRun | src/orchestration/engine.ts:167-185 | the attempt that finishes such a history ends like one run that never crashed, with every reply billed once |
| EngineCrash.ReturnedRunIsResolved | src/domain/tasks/runner.ts:824-930 | a run that returns leaves no dispatch unresolved |
| EngineUsage.FreshRunRecordsAllUsage | src/orchestration/engine.ts:596-667 | the usage of the recorded steps is that of all replies, the unusable first review included |
| EngineExamples.UnsupportedProviderIsCalledOnce | src/types/provider.ts:197-205 | an adapter without a guarantee gets one request per call, and every fault of it is ambiguous |
| EngineExamples.UnresolvedStoreSendsNothing | src/domain/tasks/runner.ts:948-989 | over a store with an unresolved dispatch no request is ever sent |
| EngineExamples.CutOffReviewTurnsIntoReject | src/orchestration/engine.ts:187-198 | a run and a crash after which the hidden cut-off replays as `reject` |
| EngineExamples.FailedPrimaryIsDispatchedAgain | src/orchestration/engine.ts:486-499 | a run and a crash after which a conclusively failed primary is called again and its reply neither kept nor billed |
| ReviewParser.ResolvedIsKnown | src/orchestration/prompts.ts:233-239 | a resolved anchor is one of the known ones |
| ReviewParser.ResolvedExactly | src/orchestration/prompts.ts:233-239 | a finding names the known anchor it spells, bare or in brackets, or else the one it spells without the prefix, and no other |
| ReviewParser.CheckFindingsLoop | src/orchestration/prompts.ts:392-404 | the loop over findings with its growing set of seen anchors |
| ReviewParser.CheckFindingsSpec | src/orchestration/prompts.ts:392-404 | findings pass exactly when they name distinct known claims and a `revise` says what to change |
| ReviewParser.ParseReviewDetailSpec | src/orchestration/prompts.ts:367-418 | a review is accepted exactly when well formed, with its verdict and findings; anything else is an empty `reject` with a reason |
| ReviewParser.MalformedIsVisible | src/orchestration/prompts.ts:372-391 | the verdict and findings alone tell an accepted review from a refused one |
| Pricing.CombinedReviewCost | src/lib/money.ts:20-41 | one bill for two calls is never below, and at most two micros above, two bills |
| Pricing.CombinedReviewCostIsTight | src/lib/money.ts:25-30 | both bounds are met |
| Pricing.PrefixMatchIsUnique | src/providers/pricing.ts:193-204 | a dated model name matches exactly the entry it is a snapshot of, whatever the table order |
| Pricing.MostExpensiveHasDearestOutput | src/providers/pricing.ts:206-212 | the fallback has the dearest output rate of the provider |
| Pricing.FallbackNeverUnderBills | src/providers/pricing.ts:206-212 | over any table the fallback never costs less than an entry, for any usage, exactly when its input rate is no lower |
| Pricing.PricingForSpec | src/providers/pricing.ts:187-191 | a model is priced by its own entry, else by the one it is a snapshot of, else by the fallback, in any table with distinct names |
| Pricing.CostForUsageNeverUnderBills | src/providers/pricing.ts:33-191 | with the shipped rates a usage has a price exactly when its model is not the name of an inherited object property: input tokens at the input rate and output tokens at the output rate of its entry or its snapshot's, or at least what every entry of the provider would bill |
| Pricing.UsageCostIsTheBill | src/lib/money.ts:20-41 | input tokens at the input rate and output tokens at the output rate, each rounded down, and nothing else |
| Pricing.SnapshotsAreDated | src/providers/pricing.ts:193-204 | a snapshot is the name of its entry and a date of four, two and two digits |
| Pricing.FallbackIsFirstDearest | src/providers/pricing.ts:206-212 | the fallback is the first entry with the dearest output rate |
| JsStrings.CodePointsAreInjective | src/lib/canonical.ts:65-80 | strings with equal code points are equal |
| JsStrings.LessIsTotalOrder | src/lib/canonical.ts:65-80 | the key order is a strict total order |
| JsStrings.LessIsByCodePoint | src/lib/canonical.ts:65-80 | a string is before another when, at the first code point where they differ, it ends or has the smaller one |
| JsStrings.CompareCodePoints | src/lib/canonical.ts:67-80 | the loop over two string iterators compares code points lexicographically |
| JsStrings.NextPoint | src/lib/canonical.ts:68-77 | one step of a string iterator |
| StrictParsing.NumberToken | scripts/backup/strict-json.ts:28 | what it finds is a number of the grammar at the start of the text |
| StrictParsing.ParseNumber | scripts/backup/strict-json.ts:168-182 | a number that is read is a prefix of the text and keeps the numeric policy |
| StrictParsing.ParseString | scripts/backup/strict-json.ts:119-166 | a string that is read is well-formed pieces up to its quote, with escaped surrogates paired |
| StrictParsing.ParseValue | scripts/backup/strict-json.ts:52-63 | a value that is read is well formed, keeps the policy and leaves less text |
| StrictParsing.ParseItems | scripts/backup/strict-json.ts:93-109 | elements that are read are well formed and keep the policy |
| StrictParsing.ParseMembers | scripts/backup/strict-json.ts:65-91 | members that are read have names whose NFC forms are new |
| StrictReader.StrictParser.SkipWhiteSpace | scripts/backup/strict-json.ts:45-47 | the index moves past white space and no further |
| StrictReader.StrictParser.Hex4 | scripts/backup/strict-json.ts:112-117 | reads four hexadecimal digits exactly when they are there |
| StrictReader.StrictParser.Escape | scripts/backup/strict-json.ts:127-158 | an escape as the specification reads it, surrogate pairs included |
| StrictReader.StrictParser.String | scripts/backup/strict-json.ts:119-166 | the string loop decodes what the specification reads |
| StrictReader.StrictParser.Number | scripts/backup/strict-json.ts:168-182 | the number and the index after it |
| StrictReader.StrictParser.ReadValue | scripts/backup/strict-json.ts:52-63 | the value and the index after it, or a refusal exactly where the specification refuses |
| StrictReader.StrictParser.ReadArray | scripts/backup/strict-json.ts:93-109 | the array loop |
| StrictReader.StrictParser.ReadObject | scripts/backup/strict-json.ts:65-91 | the object loop with its set of seen names |
| StrictReader.ParseStrictJsonText | scripts/backup/strict-json.ts:186-192 | the whole text, to its end |
| JsonExact.DerivedTextIsReadOrRefused | scripts/backup/strict-json.ts:4-17 | a text of the grammar is refused for exactly one reason, that its tree breaks the numeric, surrogate or duplicate policy; otherwise it is read back whole |
| JsonExact.ParseTextExact | scripts/backup/strict-json.ts:186-192 | the parser returns a value if and only if the text derives from the grammar by a tree that keeps the policy and means that value |
| JsonExact.DerivationIsUnique | scripts/backup/strict-json.ts:186-192 | no accepted text has two derivations |
| JsonValues.AcceptedValuesAreClean | scripts/backup/strict-json.ts:6-16 | at every depth of an accepted value no object has two NFC-equal names and no integer is unsafe |
| JsonValues.NumericPolicyExact | scripts/backup/strict-json.ts:14-17 | the code keeps the stated numeric policy exactly except on zeros whose exponent has a nonzero digit |
| JsonValues.LiteralText | scripts/backup/strict-json.ts:168-192 | a text that is one literal is accepted exactly when the literal is |
| JsonValues.EscapesAreThese | scripts/backup/strict-json.ts:127-158 | the two-character escapes and what each stands for |
| JsonValues.CharactersAreThese | scripts/backup/strict-json.ts:45-47 | white space and hexadecimal digits |
| JsonValues.HexIsPositional | scripts/backup/strict-json.ts:112-117 | four hexadecimal digits as a number |
| JsonValues.ObjectKeepsPolicy | scripts/backup/strict-json.ts:65-91 | an object is refused exactly for a member of its own or for two names equal in NFC |
| JsonValues.ZeroWithExponentIsRefused | scripts/backup/strict-json.ts:175-180 | the literal `0e5` |
| Canonical.HasControlChar | src/lib/canonical.ts:33-40 | the loop finds a control character exactly when there is one |
| Canonical.ObjectText | src/lib/canonical.ts:126-134 | the loop over sorted names refuses exactly a repeated one |
| CanonicalText.CanonRendersNormal | src/lib/canonical.ts:98-137 | the canonicalizer succeeds exactly on values with a normal form and prints that form |
| CanonicalPrinted.CanonIsWhatPrints | src/lib/canonical.ts:82-142 | what the text of a value is, at every depth: the members of an object stand in strictly rising order of their names by code point, and are exactly its defined fields under their NFC names; otherwise it is refused |
| CanonicalPrinted.PlainTextIsQuotedAsIs | src/lib/canonical.ts:98-101 | a text without quotes, backslashes, control characters and lone surrogates is quoted as it is |
| CanonicalReading.CanonicalRoundTrip | src/lib/canonical.ts:139-142 | of the values that can be printed, exactly those without a lone surrogate, an unsafe bigint or a `__proto__` name come back from the strict parser equal up to the order of names, undefined fields, NFC, and number or bigint |
| CanonicalReading.OrdinaryValuesComeBack | scripts/backup/strict-json.ts:186-192 | null, booleans, safe integers, well-formed NFC texts, arrays and objects with distinct names are printed and read back as they were, up to the order of names |
| CanonicalFaithful.NormalTellsValue | src/lib/canonical.ts:98-137 | the normal form keeps all there is but the order of names: two values share one exactly when they are alike |
| CanonicalFaithful.CanonicalTextsAreFaithful | src/lib/canonical.ts:98-142 | two printable values have one text exactly when they are equal up to the order of names, undefined fields, NFC, and number or bigint |
| CanonicalFaithful.AlikeIsSame | src/lib/canonical.ts:98-142 | for values in NFC without bigints that is equality up to the order of names and undefined fields only |
| CanonicalSame.CanonicalTextIgnoresOrder | src/lib/canonical.ts:122-135 | at any depth, reordering names or dropping undefined fields never changes the text |
| CanonicalOrder.SortIgnoresOrder | src/lib/canonical.ts:126-127 | entries with distinct names sort alike in whatever order they come |
| ReceiptCanonical.FinalizedIdIsItsOwn | scripts/backup/receipt-v2-canonical.ts:22-31 | a finalized receipt holds exactly the id that is derived from it |
| ReceiptCanonical.ReceiptTextsAre | scripts/backup/receipt-v2-canonical.ts:12-36 | what an id and a signing text are made of |
| ReceiptCanonical.IdsAreFaithful | scripts/backup/receipt-v2-canonical.ts:15-26 | without a digest collision, two receipts have one id exactly when their fields apart from the id are equal up to order and NFC |
| ReceiptCanonical.SigningTextsAreFaithful | scripts/backup/receipt-v2-canonical.ts:33-36 | two payloads have one signing text exactly when their fields are equal up to order and NFC |
| ReceiptCanonical.DomainsAreSeparate | scripts/backup/receipt-v2-canonical.ts:12-13 | no text is both signed and hashed into an id |
| ReceiptVerify.AcceptedIsSigned | scripts/backup/receipt-v2-verify.ts:143-192 | an accepted receipt has the id of its content and a signature of a trusted key that is valid at every time from the receipt to the migration |
| ReceiptVerify.AcceptedBinds | scripts/backup/receipt-v2-verify.ts:194-270 | an accepted receipt lists exactly the expected pending migrations, names this deployment, commit and database, and has a snapshot that is older than the migration and fresh |
| ReceiptVerify.AcceptedExactly | scripts/backup/receipt-v2-verify.ts:143-276 | a receipt is accepted if and only if it is properly signed, for this release and database, and timely, with every field compared |
| ReceiptVerify.PendingComesBack | scripts/backup/receipt-v2-schema.ts:43-46 | a pending list written into a payload is read back from it |
| ReceiptVerify.PendingSame | scripts/backup/receipt-v2-verify.ts:229-232 | payloads that differ only in the order of fields, at any depth, list the same pending migrations |
| ReceiptVerify.AcceptedWasIssued | scripts/backup/receipt-v2-verify.ts:143-278 | an accepted receipt that is not itself forged is one that was issued, up to the order of fields, and what was issued binds this deployment and these migrations |
| ReceiptVerify.GateRunsWhatWasIssued | scripts/backup/premigration-gate.ts:331-396 | an enforced gate lets nothing through but a catalog-verified empty database, or exactly the files not applied yet, which are the ones a trusted signer's payload lists unless the fetched receipt is forged |
| Migration.JournalIsGood | scripts/backup/migration-detector.ts:132-140 | the journal check: rising timestamps, distinct tags |
| Migration.RowsAreOrdered | scripts/backup/migration-detector.ts:157-171 | the duplicate and order checks on the applied rows |
| Migration.MapRows | scripts/backup/migration-detector.ts:176-207 | the loop that maps rows onto the journal and counts exact, variant, attested and unknown ones |
| Migration.ClassifyMigrationState | scripts/backup/migration-detector.ts:128-241 | the classifier decides as the specification, in which a clean prefix is one condition |
| MigrationVerdict.VerdictIsExact | scripts/backup/migration-detector.ts:128-241 | each of the seven states, exactly when, on the input's own fields |
| MigrationVerdict.VerdictSays | scripts/backup/migration-detector.ts:128-241 | what the verdict says besides its state: pending tags, and the rows and files of each kind, in order |
| MigrationLaws.EveryRowIsAccountedFor | scripts/backup/migration-detector.ts:216-233 | exact, variant, attested and unknown add up to the applied rows |
| MigrationLaws.PendingIsTheRest | scripts/backup/migration-detector.ts:209-241 | applied and pending tags partition the journal |
| MigrationLaws.ProgressIsClosed | scripts/backup/migration-detector.ts:176-241 | running the next k pending files diverges exactly on a repeated hash, mismatches exactly on a row neither bindable nor attested, and otherwise leaves exactly the other tags |
| MigrationLaws.BindableProgressKeepsCounts | scripts/backup/migration-detector.ts:209-217 | from a bindable state each file run adds one exact or variant match and stays bindable |
| Sorting.SortIgnoresOrder | src/lib/canonical.ts:126-127 | under any strict order, elements that are apart sort alike in whatever order they come |
| IntSort.SortIgnoresOrder | scripts/backup/runtime-migration-set.ts:83-84 | entries with distinct indexes sort alike in whatever order they come |
| Gate.ComputeRuntimeMigrationSet | scripts/backup/runtime-migration-set.ts:58-90 | the loop with its three sets accepts exactly well-named files without repeats, sorted by index |
| Gate.AppliedIsCleanPrefix | scripts/backup/premigration-gate.ts:243-257 | the gate's loop accepts exactly a rising clean prefix |
| Gate.ValidatePendingCanonical | scripts/backup/receipt-v2-schema.ts:48-61 | accepts exactly rising indexes with distinct tags and paths |
| Gate.EqualPending | scripts/backup/receipt-v2-verify.ts:124-133 | element-wise equality |
| GateLaws.DetectorAndGateAgree | scripts/backup/premigration-gate.ts:242-257 | the gate accepts exactly the histories the detector does not call divergent |
| GateLaws.AcceptsExactly | scripts/backup/premigration-gate.ts:243-257 | the rows the gate lets through, for any journal |
| GateLaws.GateBootstrapsWithDetector | scripts/backup/premigration-gate.ts:364-370 | the gate takes the bootstrap path if and only if the detector says BOOTSTRAP_EMPTY |
| GateLaws.GateDecidesExactly | scripts/backup/premigration-gate.ts:331-396 | what each verdict of the gate takes |
| GateLaws.GateDemandsTheRest | scripts/backup/premigration-gate.ts:228-240 | the gate demands exactly the files after the applied prefix |
| GateLaws.MissingFileIsRefused | scripts/backup/premigration-gate.ts:233-237 | there is a pending list exactly when every pending entry has a file |
| GateLaws.DemandIsInOrder | scripts/backup/premigration-gate.ts:233-240 | the demanded files are in the order of their indexes |
| GateLaws.GateIgnoresJournalOrder | scripts/backup/premigration-gate.ts:229-247 | the order the journal is listed in does not matter |
| GateLaws.SignerListsTheRest | scripts/backup/sign-staging-receipt.ts:169-194 | a signed list is exactly the files from the applied count on, in canonical order |
| GateLaws.SignerListsExactly | scripts/backup/sign-staging-receipt.ts:169-183 | the signer lists something exactly when the files are as pinned and the count is one of theirs |
| GateLaws.SignerMeetsGate | scripts/backup/sign-staging-receipt.ts:184-192 | the signed list is the demanded one if and only if the signer knew the true applied count |
| GateLaws.DetectorAndGatePendAlike | scripts/backup/migration-detector.ts:209-215 | the detector's pending tags are those of the demanded files |
| GateLaws.SetFollowsJournal | scripts/backup/runtime-migration-set.ts:102-121 | files read in journal order are the set, in that order |
| GateLaws.SetIgnoresOrder | scripts/backup/runtime-migration-set.ts:83-90 | neither the set nor its refusal depends on the input order |
| Publish.ObjectStore.PutIfAbsentOnce | scripts/backup/publish-receipt.ts:227-240 | a conditional write creates and never overwrites; its reply may be lost |
| Publish.CreateOnlyWrite | scripts/backup/publish-receipt.ts:108-125 | the write loop: bounded writes, nothing overwritten, what each outcome proves, that it gives up only on a failed probe or after the last attempt, and that it goes through the states of a publisher of the interleaved model |
| Publish.PublishReceipt | scripts/backup/publish-receipt.ts:145-225 | success means a read-back that came through and the verified bytes at the locator, and in good weather comes exactly then; an unverified receipt is never written; and each run is a run of one publisher of the interleaved model among others |
| Publish.StepKeeps | scripts/backup/publish-receipt.ts:108-225 | every step of every publisher keeps the invariant, and no step changes what is stored |
| Publish.SuccessIsForever | scripts/backup/publish-receipt.ts:196-206 | under every interleaving, whoever succeeded has its verified bytes at its locator from then on |
| Publish.SuccessWasReadBack | scripts/backup/publish-receipt.ts:196-206 | in every interleaving no publisher succeeds without a read-back of its own |
| Publish.NoTwoReceiptsAtOneLocator | scripts/backup/publish-receipt.ts:201-205 | two publishers of different bytes never both succeed |
| Publish.WritesAreBounded | scripts/backup/publish-receipt.ts:114-124 | no publisher sends more conditional writes than allowed |
| Publish.AtMostOneCreates | scripts/backup/publish-receipt.ts:212-213 | at most one publisher of a locator reports `created` |
| Utf8.Utf8Checker.ValidChunk | guest/king-file-write-v1/king-file-write-v1.c:105-131 | the byte loop carries the automaton's state over a chunk |
| GuestWriter.Guest.ReadPayload | guest/king-file-write-v1/king-file-write-v1.c:133-148 | the loop over reads and writes ends well only on a short enough payload that passes, and without others or failures exactly then, with the payload in the staged file |
| Utf8.PassesExactlyText | guest/king-file-write-v1/king-file-write-v1.c:107-148 | the automaton accepts exactly section 4 of RFC 3629 without DEL and the C0 controls other than tab and newline |
| Utf8.ThreadedRuns | guest/king-file-write-v1/king-file-write-v1.c:133-146 | threading the state through the chunks is running over all their bytes |
| Utf8.ChunksDoNotMatter | guest/king-file-write-v1/king-file-write-v1.c:133-146 | the verdict of the chunked check is the same for all cuts of the same bytes, and positive exactly on the text of the syntax |
| Utf8.CharsAreScalars | guest/king-file-write-v1/king-file-write-v1.c:115-127 | the characters are exactly the encodings of the scalar values |
| GuestTarget.CheckTarget | guest/king-file-write-v1/king-file-write-v1.c:66-89 | the one pass over the name accepts exactly the allowed targets |
| GuestTarget.AllowedExactly | guest/king-file-write-v1/king-file-write-v1.c:60-89 | the allowed targets are the paths of at most 240 bytes and twelve plain parts that end in one of six extensions |
| GuestTarget.LeafIsNoTemporary | guest/king-file-write-v1/king-file-write-v1.c:60-64 | no accepted target is a name files are staged under |
| GuestWriter.Guest.CreateStaged | guest/king-file-write-v1/king-file-write-v1.c:186-189 | the staged file gets a free temporary name |
| GuestWriter.Guest.Stage | guest/king-file-write-v1/king-file-write-v1.c:190-192 | staging ends well only on a text payload whose staged content was read back with the desired hash; without others or failures exactly then |
| GuestWriter.Guest.OpenChecked | guest/king-file-write-v1/king-file-write-v1.c:175-183 | the three calls that open a name, find its file singly linked and plain, or the one known before, and hash it |
| GuestWriter.Guest.Rename | guest/king-file-write-v1/king-file-write-v1.c:207-208 | a create never replaces a name; without other writers only the desired content is moved in, and a replace overwrites the expected content only |
| GuestWriter.HashesAreLowerHex | guest/king-file-write-v1/king-file-write-v1.c:150-157 | a hash is 64 hexadecimal digits in lower case |
| GuestWriter.Guest.Install | guest/king-file-write-v1/king-file-write-v1.c:207-223 | the rename, and success only when the calls after it read the target back with the desired hash |
| GuestWriter.Guest.StageAndInstall | guest/king-file-write-v1/king-file-write-v1.c:186-229 | from staging to the read-back |
| GuestWriter.Guest.Work | guest/king-file-write-v1/king-file-write-v1.c:159-230 | among any other writers: the log of calls is genuine, blocked and failed mean exactly that no rename was tried, success means that no call failed, with one install and, in the last calls after it and the sync of the directory, a read-back of the target with the desired hash; without others success leaves exactly the payload at the target and all else as it was, and when no call fails the outcome is determined by the disk |
| GuestWriter.Guest.SuccessReadTheTarget | guest/king-file-write-v1/king-file-write-v1.c:209-223 | what a read-back shows among other writers: after the install the target's name stood for a plain, singly linked file whose content, read last, had the desired hash |
| GuestWriter.Guest.InstallWasChecked | guest/king-file-write-v1/king-file-write-v1.c:190-208 | among other writers there is one install at most; before it the staged file was read with the desired hash, a create met no such name, and a replace had just read the expected hash in the file that held it at first |
| GuestWriter.Guest.NoInstallSparesTarget | guest/king-file-write-v1/king-file-write-v1.c:186-230 | no call but an install changes the target, unless someone linked it to the staged file |
| ToolLoop.RunRound | src/providers/anthropic.ts:401-419 | each tool use is run once, in order, and its failure is an error result |
| ToolLoop.StreamWithTools | src/providers/anthropic.ts:250-423 | the loop ends and does what its specification says |
| ToolLoop.RetryRoom | src/providers/anthropic.ts:41-45 | the retry has more room exactly below 32,000, and less exactly above |
| ToolLoopLaws.TurnsAreBounded | src/providers/anthropic.ts:244-256 | at most maxIterations + 2 calls and maxIterations rounds, no tool for a cut-off or wrap-up call, and last words after tools |
| ToolLoopTurns.CallsAreDetermined | src/providers/anthropic.ts:241-423 | every call of a turn is the one due after those before it, with its room, with tools off exactly in a wrap-up or at the cap after tools ran, and with all its tool uses run or none; the turn ends exactly when none is due, or one fails |
| ToolLoopTurns.OneNudge | src/providers/anthropic.ts:257-271 | to what the turns said the loop adds one nudge when it wraps up, for the cap or for an empty reply, and nothing else |
| ToolLoopTurns.TurnIsSentAsIs | src/providers/anthropic.ts:20-28 | a turn is sent with its own words and images |
| ToolLoopTurns.ToolUsesAre | src/providers/anthropic.ts:377-379 | the tool uses of a reply are all its blocks of that kind, in order |
| ToolLoopLaws.RoomOfATurn | src/providers/anthropic.ts:249-256 | one silent call that hits the limit is made again with the retry budget; the turn is flagged cut off exactly when its last call hit the limit |
| ToolLoopLaws.ExecutedToolsAreAnswered | src/providers/anthropic.ts:396-420 | a call's tools run exactly when it stops for them with tools on; its reply is then in the history with the results of its tool uses right behind it; and the history holds one result for each tool run, in order, by its id and with what the run came to, and no other |
| ToolLoopLaws.HistoryKeepsReplies | src/providers/anthropic.ts:250-423 | the replies in the history are those of the turns before and then exactly the ones that paused or had their tools run |
| ToolLoopLaws.HistoryIsComplete | src/providers/anthropic.ts:396-420 | every tool use in the history, those that ran included, is answered by id in the next message, exactly when no reply the loop asked for pauses with a tool use |
| ToolLoopLaws.PausedToolUseStaysOpen | src/providers/anthropic.ts:396-420 | a model that pauses with a tool use and then speaks: the turn ends well, no tool has run, and the tool use has no answer |
| ToolLoopLaws.NudgeKeepsAnswers | src/providers/anthropic.ts:257-262 | the nudge takes no answer away and gives none |
| WrapUntrusted.SanitizedIsTagFree | src/orchestration/prompts.ts:53-58 | after both replacements no delimiter is left or made |
| WrapUntrusted.CleanContentIsKept | src/orchestration/prompts.ts:53-58 | content without delimiters goes through unchanged |
| WrapUntrusted.OnlyDelimitersAreReplaced | src/orchestration/prompts.ts:53-58 | nothing of the content is lost, moved or added but that each delimiter gives way to the mark |
| WrapUntrusted.OneBoundary | src/orchestration/prompts.ts:53-59 | one opening and one closing delimiter, at the end, if and only if the title has none |
| Markdown.TurnMovesOn | src/components/safe-markdown.tsx:25-73 | a turn of the loop advances exactly when its line is not stuck |
| Markdown.LoopEndsExactly | src/components/safe-markdown.tsx:21-75 | the loop ends if and only if no line outside the fenced blocks is stuck |
| Markdown.TerminatorInTitleHangs | src/components/safe-markdown.tsx:39-43 | a heading mark and a line terminator inside the title is such a line |
| Markdown.TurnConserves | src/components/safe-markdown.tsx:25-73 | a turn moves the lines it passes into blocks in order, dropping only blanks and fences |
| Markdown.TurnTakesTheWholeRun | src/components/safe-markdown.tsx:25-73 | the first line decides what a turn adds, and the block goes on as long as lines of its kind follow |
| Markdown.FencesAre | src/components/safe-markdown.tsx:27 | the fence test as a pattern |
| Markdown.HeadingsAre | src/components/safe-markdown.tsx:39 | the heading test as a pattern |
| Markdown.HeadingMarksAre | src/components/safe-markdown.tsx:66 | the test a paragraph stops at as a pattern |
| Markdown.QuotesAre | src/components/safe-markdown.tsx:45 | the quote test as a pattern |
| Markdown.ListItemsAre | src/components/safe-markdown.tsx:77 | the list item test as a pattern |
| Markdown.ParseExcerptBlocks | src/components/safe-markdown.tsx:21-75 | the blocks are those of the turns from first to last; every line that is neither blank nor a fence is in exactly one of them, in order, and each holds lines of its kind |
| WakeLock.NothingLeaks | src/lib/use-wake-lock.ts:26-61 | under every order of events one request at most is out and what is held is exactly the lock |
| WakeLock.StopIsFinal | src/lib/use-wake-lock.ts:35-39 | after the stop nothing is held or requested, whatever comes late |
| WakeLock.LostLockIsRequestedAgain | src/lib/use-wake-lock.ts:50-54 | a visible page that is not stopped holds the lock or has asked for it |
| WakeLock.HiddenPageRequestsNothing | src/lib/use-wake-lock.ts:31-33 | nothing is requested before the page is visible |
| WakeLock.Holder.TryAcquire | src/lib/use-wake-lock.ts:31-33 | the guard and the request |
| WakeLock.Holder.OnGranted | src/lib/use-wake-lock.ts:35-48 | the continuation of a granted request |
| WakeLock.Holder.OnDenied | src/lib/use-wake-lock.ts:44-48 | the continuation of a denied request |
| WakeLock.Holder.OnReleased | src/lib/use-wake-lock.ts:41-43 | the release listener |
| WakeLock.Holder.OnVisibilityChange | src/lib/use-wake-lock.ts:50-54 | the visibility listener |
| WakeLock.Holder.OnStop | src/lib/use-wake-lock.ts:55-61 | the returned stop function |

## Left out

- EngineSession.Session.ExecuteRun: prompt assembly, prompt hashes, review provenance, `onMalformedOutput` audits, the text of deltas and per-call timeouts are not modelled; no decision of the engine depends on them.
- EngineSession.Session.ReviewPhase: what counts as a result block, and its JSON schema, are parameters; they are regular expressions and a schema.
- EngineHistory.EveryReplyIsBilledOnce: extraction steps after a run, which bill on their own, are not part of the history.
- EngineResume.ResumeRefinesRun: latency and stop reason of replayed steps are not compared, since a checkpoint does not keep them.
- EngineCrash.CrashesAreOneRun: needs each attempt to start over a store without an unresolved dispatch and without the two cases named above; over an unresolved one nothing is sent at all.
- StrictReader.StrictParser.ReadObject: objects keep the order of insertion, while JavaScript lists integer-like names first; the laws up to the order of names do not see this.
- StrictReader.ParseStrictJsonText: error messages and positions are not modelled, negative zero is the integer zero, and the byte-order and UTF-8 checks of `parseStrictJsonBuffer` are left to the platform.
- StrictParsing.NumberToken: how a literal rounds to a double, and when it overflows, are parameters of the platform.
- CanonicalText.CanonRendersNormal: fractional and non-finite numbers, set fields and path fields are not modelled; receipts use none. Which error is thrown first is not modelled.
- ReceiptCanonical.SigningTextsAreFaithful: texts stand for their UTF-8 bytes.
- Migration.ClassifyMigrationState: the `detail` texts, and the reader that fills the input from the database and verifies attestations.
- ReceiptVerify.GateRunsWhatWasIssued: error codes, the trust bundle, the locator and the transport are not modelled, nor is `finalizeMigrationConnection`.
- ReceiptVerify.AcceptedWasIssued: the schema, date parsing, the signature scheme, the syntax of image references, the provider evidence and its digest are parameters; that the receipt at hand is not forged and that the schema lets only NFC payloads without repeated names through are assumptions.
- Publish.PublishReceipt: error codes and the returned metadata; the transport limits of the read-back are a failed fetch.
- GuestWriter.Guest.Work: a failed write writes nothing, a hash reads the content in one step, `fsync` is a call that may fail without effect, link counts do not fall when a name goes, and the workspace and the directories above the target are two calls that may fail; the boot sequence and the wall limit are not modelled.
- ToolLoop.StreamWithTools: stream events inside a reply, token and search counts, the temperature and web-search fallbacks of opening a stream, and parsing of tool inputs.
- Markdown.ParseExcerptBlocks: taking markers off the lines, list depth, and inline formatting.
- WakeLock.Holder.OnGranted: runs in the turn that answers the request, so no release event comes between.
- Postgres, row-level security, HTTP and S3 transports, React pages, seeds and demo scripts: plumbing without a property of this kind.
- `extractProposedActions`, `extractRunArtifacts` and the delegation and question blocks: the run takes them as one extraction function.
- `discoverFlyVolumeSnapshot` and key bundles: lookups settled by one branch each.
