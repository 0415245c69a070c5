# Governance tools: a verified model

This project models the decision logic of the repository's governance tools in Dafny and
proves what that logic promises. `dafny verify dfyconfig.toml` checks everything.

What is modelled, one module per source component:

- **Escalation authority.** Three stores (a directory of fingerprinted authority artifacts, an
  append-only log, a companion register), the payload validator and its normalisation, the
  artifact builder and assessor, the aggregation over a directory, and the writer as a state
  machine (`EscalationLog`, `EscalationAuthority`, `EscalationDirectory`).
- **Contract and baseline files.** The flat-YAML parser, the in-place contract editor, the
  baseline printer and reader, and the refresh (`FlatYaml`, `ContractEditor`, `Baseline`).
- **Versions.** Release parsing, two comparison orders, ranges, and the feature evaluator
  (`Versions`, `VersionCheck`).
- **Ingestion.** The rewrite of candidates, path masks, and the analysis they are meant to
  change (`Ingestion`).
- **Evidence aggregation** with de-duplication and ledger-driven suppression
  (`EvidenceAggregation`).
- **Failure classification and the closeout gate** (`FailureGate`).
- **Drift recorder and risk signal**, from a failed check to the level a session starts at
  (`DriftRecorder`, `RiskSignal`).
- **Text scanners and a render/parse pair** (`Sections`, `Braces`, `ContractBlock`).

`Text`, `Sorting` and `Json` hold the operations on strings, sorted lists and JSON values the
components share. Code that only computes is a function; loops are methods proved equal to
a function or to a stated property; files that are rewritten in place are fields of a class.
Digests, JSON serialisation, clocks, key order and regular-expression matching enter as
function parameters; a theorem lists the laws it needs of them (`LawfulCodec`, `Verbatim`,
`Injective`, `LawfulClock`, `LawfulReader`) and assumes nothing else.

Properties that hold only under a condition are stated with that condition, in both
directions:

- The contract editor adds exactly the requested entries if and only if `EditSafe` holds. A
  scalar entry, a later line for the same key, or another spelling makes it lose entries.
- A log made of appends alone is judged trusted if and only if no serialised entry holds a
  line separator. JSON text leaves U+0085, U+2028 and U+2029 unescaped and the reader splits
  lines there; a piece that is JSON but no object even makes the reader raise.
- A stored invalid artifact blocks every later assessment if and only if the folders its id
  names lead back to the authority directory. The id `a/b` does not: its file is written
  beside what the listing reads.
- A valid artifact blocks the release as its stored payload says. That is what the normalised
  payload says if and only if the stored one blocks or no block rule applies, so a block that
  is edited out of a stored payload is not noticed.
- Masks leave every scenario as likely to raise as before if and only if none of them is
  `errors`, `checks`, the layer results or their missing fields.
- The plan path survives refreshes if and only if it survives the scalar parser.
- The early-exit section scanner agrees with the full parser if and only if every anchor
  behind real content is itself followed by real content before the next heading.
- The derived specificity of a candidate is independent of event order if and only if the
  earliest events of each reference settle it.
- A recorded verdict can be "ok" although a check is recorded as failed, exactly when only
  plan staleness failed.
- The drift check clears the risk signal of every source, not only its own, although the
  source-scoped clear exists for other producers.
- A governed prompt yields its own block if and only if the prompt holds no fenced contract.
- Log and register activity blocks a release only while the authority directory is missing;
  an existing empty directory is not blocked by it.
- The answer of a version range depends on the order of its comparators if and only if one of
  them rejects the release and another gives no answer on it.

## Model

| member | source | states |
|---|---|---|
| Text.SplitUnlines | governance_tools/adopt_governance.py:212-212 | lines joined with line feeds split back into the same lines, for every list of break-free lines |
| Text.SplitAppend | governance_tools/escalation_log_writer.py:96-102 | text that ends in a line feed splits independently of what is appended to it |
| FlatYaml.ParseContractYaml | governance_tools/domain_contract_loader.py:26-68 | the parsing loop returns the data or the error of the line-by-line state machine |
| FlatYaml.OpenListExists | governance_tools/domain_contract_loader.py:42-66 | the key of the open list always maps to a list, so the loop's own assertion never fires |
| FlatYaml.ClassifyKeyLine | governance_tools/domain_contract_loader.py:57-66 | a printed `key:` line is a list head when nothing or `[]` follows, else an entry holding the scalar of the rest |
| FlatYaml.ClassifyItemLine | governance_tools/domain_contract_loader.py:31-47 | a printed item line is read as that item |
| FlatYaml.ParseQuoted | governance_tools/domain_contract_loader.py:19-23 | quoting protects every text through the scalar parser, inner quotes and spaces included |
| ContractEditor.InsertEntries | governance_tools/adopt_governance.py:229-257 | the editing loop yields the old lines with the entries after the list of the first exact key line, or a new block at the end |
| ContractEditor.EditLaw | governance_tools/adopt_governance.py:167-265 | an edit of a file that parses always yields one that parses, and the parse differs by exactly the inserted entries iff the edit is safe |
| ContractEditor.EditTextLaw | governance_tools/adopt_governance.py:167-265 | the same law on file text, through splitting and joining lines |
| ContractEditor.EditKeepsMarks | governance_tools/adopt_governance.py:217-265 | editing one key leaves the lines that set any other key, in order, so two edits do not interfere |
| ContractEditor.AgentsBaseStep | governance_tools/adopt_governance.py:167-214 | afterwards AGENTS.base.md is referred to; the parse changes by at most that entry |
| ContractEditor.DocumentsStep | governance_tools/adopt_governance.py:217-265 | afterwards all required documents are listed; the parse changes by at most the missing ones |
| ContractEditor.AdoptionStable | governance_tools/adopt_governance.py:654-661 | both edits list every required document, touch no other entry, and running both again changes nothing |
| ContractEditor.SingleExactIsSafe | governance_tools/adopt_governance.py:184-207 | a file without the key, or with it once in an exact form, is always safe to edit |
| ContractEditor.ScalarDocumentIsLost | governance_tools/adopt_governance.py:229-263 | a scalar `documents` entry is gone after the edit |
| ContractEditor.ScalarIsLostExample | governance_tools/adopt_governance.py:229-263 | a contract.yaml of the line `documents: x` lists the required documents afterwards and no longer `x` |
| ContractEditor.ContractFile.EnsureAgentsBaseReference | governance_tools/adopt_governance.py:167-214 | the file becomes the edited text, or stays on a dry run or parse error; the result says whether it was to change |
| ContractEditor.ContractFile.EnsureGovernanceDocs | governance_tools/adopt_governance.py:217-265 | the same for the required documents |
| Baseline.RunDoc | governance_tools/adopt_governance.py:412-474 | every printed document parses, to the entries its blocks stand for |
| Baseline.ReadWritten | governance_tools/adopt_governance.py:377-476 | reading a written baseline returns the required sections and the inventory written, for all headings without line breaks, and the plan path as reread |
| Baseline.RereadSurvivors | governance_tools/adopt_governance.py:784-784 | a path that does not survive the scalar parser comes back shorter or as the default, never as it was |
| Baseline.RefreshState | governance_tools/adopt_governance.py:811-874 | one refresh of any readable baseline keeps the mandate, rereads the path and records the current headings |
| Baseline.MandateKept | governance_tools/adopt_governance.py:811-874 | however many refreshes are run, in whatever repository states, the required sections stay the same |
| Baseline.PathOfRefreshes | governance_tools/adopt_governance.py:811-874 | after n refreshes the plan path is the old one reread n times |
| Baseline.PathKept | governance_tools/adopt_governance.py:811-874 | after any positive number of refreshes the plan path is the old one iff it survives |
| Baseline.QuotedPathIsLost | governance_tools/adopt_governance.py:811-874 | a baseline whose path is read as `'p'` has the path `p` after one refresh |
| Baseline.BaselineFile.RefreshBaseline | governance_tools/adopt_governance.py:811-894 | exit code 1 without a baseline, the parser's error on an unreadable one, else the refreshed text; a dry run changes nothing |
| EscalationLog.ReadLogEntryHashes | governance_tools/escalation_log_writer.py:105-124 | the reading loop collects exactly the string hashes on the lines that parse |
| EscalationLog.AssessLogWriterIntegrity | governance_tools/escalation_log_writer.py:127-222 | the counting loop gives the per-line tally and the verdict from it; an absent log does not block and one that cannot be opened does |
| EscalationLog.NormalizedEntry | governance_tools/escalation_log_writer.py:72-102 | an accepted entry carries the writer's identity, the time, and a usable hash of the three identifying fields |
| EscalationLog.AppendedLogTrusted | governance_tools/escalation_log_writer.py:127-222 | a log made of appends is trusted, one trusted entry per append, iff no serialised entry holds a line separator |
| EscalationLog.SeparatorIsNotTrusted | governance_tools/escalation_log_writer.py:72-222 | an accepted entry with a plain text holding a line separator leaves every log it is appended to untrusted |
| EscalationLog.SeparatorExample | governance_tools/escalation_log_writer.py:72-222 | the writer accepts an escalation id that is U+2028, and its log is not trusted |
| EscalationLog.ReadingRaisesIff | governance_tools/escalation_log_writer.py:110-121 | reading the hashes raises iff some line holds JSON that is no object |
| EscalationLog.CleanAppendHashes | governance_tools/escalation_log_writer.py:96-124 | appending entries without line separators adds exactly their hashes to what is read, and makes the reader raise only if it did before |
| EscalationLog.RaisingExample | governance_tools/escalation_log_writer.py:72-124 | the writer accepts an id with an enclosed `[]` after which every reading of its log raises |
| EscalationLog.AppendedHashFound | governance_tools/escalation_log_writer.py:96-124 | for an entry without line separator: its hash is found after every later sequence of appends unless the reader raises, which a later entry with a separator can cause; with a readable log before and no separators it never does |
| EscalationLog.RegisterRoundTrip | governance_tools/escalation_log_writer.py:229-330 | a written register is trusted and lists exactly the given ids, each once |
| EscalationAuthority.ValidatePrewritePayload | governance_tools/escalation_authority_writer.py:150-244 | the validator's steps give the errors in order and the normalised payload, or raise, as the rule list says |
| EscalationAuthority.NormalizationFixpoint | governance_tools/escalation_authority_writer.py:150-244 | validating a normalised payload returns it unchanged with the same errors |
| EscalationAuthority.AddBlocksEffect | governance_tools/escalation_authority_writer.py:129-133 | after adding release blocks every reason is there, the payload is blocked, and earlier reasons stay |
| EscalationAuthority.BuiltThenAssessed | governance_tools/escalation_authority_writer.py:247-458 | a freshly built artifact is assessed valid iff its payload validated, with its id, state and release block; it raises only when the reasons are no list-like value |
| EscalationAuthority.BuiltIsBound | governance_tools/escalation_authority_writer.py:280-437 | an artifact built with the hash of an append without line separator is log bound after every later sequence of appends, if neither reading the log nor assessing raises; exactly when each raises |
| EscalationAuthority.BuiltIsBoundOutright | governance_tools/escalation_authority_writer.py:280-437 | with a readable log before, entries without line separators and list-like reasons, nothing raises and the artifact is log bound |
| EscalationAuthority.TamperEvident | governance_tools/escalation_authority_writer.py:89-120 | with a collision-free digest and a valid artifact: another payload under its provenance is assessed valid iff it validates, its reasons can be listed, and it agrees after normalisation on every fingerprinted entry |
| EscalationAuthority.RawPayloadPasses | governance_tools/escalation_authority_writer.py:355-386 | every payload that validates is assessed valid under its own built provenance also as it was given, blocking by its own flag only |
| EscalationAuthority.ValidBlocksIff | governance_tools/escalation_authority_writer.py:384-387 | a valid artifact blocks iff its stored payload does; this agrees with the normalised payload iff the stored one blocks or no block rule applies; a stored list of reasons names every rule that applies |
| EscalationAuthority.LiftedBlockExample | governance_tools/escalation_authority_writer.py:331-400 | the artifact built from a contaminated payload blocks; without the block in its stored payload it is as valid and does not |
| EscalationAuthority.ConfirmedByReviewer | governance_tools/escalation_authority_writer.py:194-238 | every artifact valid in state resolved_confirmed records a reviewer's manual confirmation from resolved_provisional |
| EscalationAuthority.TransitionAllowedIff | governance_tools/lifecycle_transition_writer.py:43-88 | only an active case resolves provisionally, and only a reviewer, not automation, confirms what was resolved |
| EscalationAuthority.ResolutionIff | governance_tools/escalation_authority_writer.py:203-238 | a payload in a resolved state has no fault of its resolution iff its transition record is the one that state demands |
| EscalationAuthority.BlockedIff | governance_tools/escalation_authority_writer.py:129-242 | the normalised payload blocks the release iff the payload did or one of the five rules applies |
| EscalationDirectory.EffectiveIsMinimum | governance_tools/escalation_authority_writer.py:140-147 | the effective state of an id is a recorded one of least rank among its records |
| EscalationDirectory.EffectiveOrderFree | governance_tools/escalation_authority_writer.py:571-582 | effective states do not depend on the order of the records |
| EscalationDirectory.CollectEffective | governance_tools/escalation_authority_writer.py:571-582 | the loop over the records computes the effective states |
| EscalationDirectory.CollectStates | governance_tools/escalation_authority_writer.py:584-593 | the loop over effective states flags and names exactly the invalidated and active ones, in any iteration order |
| EscalationDirectory.CollectOverrides | governance_tools/escalation_authority_writer.py:595-601 | the loop over register-active ids flags and names exactly those recorded resolved_confirmed |
| EscalationDirectory.JudgeRecords | governance_tools/escalation_authority_writer.py:563-611 | the flags and the duplicate-free reason list are those of the specified verdict; the records' own reasons come first, each where it first occurs |
| EscalationDirectory.AssessFiles | governance_tools/escalation_authority_writer.py:560-562 | files are assessed in turn and the first exception ends the reading |
| EscalationDirectory.EvidenceMeaning | governance_tools/escalation_authority_writer.py:613-631 | every artifact is counted once by its binding; the directory's evidence level is its weakest, log bound iff there are artifacts and all are |
| EscalationDirectory.AssessAuthorityDirectory | governance_tools/escalation_authority_writer.py:461-654 | the whole assessment, with a missing directory and every register case, its reasons, binding summary, evidence level and log advisory |
| EscalationDirectory.UnblockedIff | governance_tools/escalation_authority_writer.py:563-611 | a present directory is unblocked iff no record blocks or is invalid, none is active or invalidated, no register-active id is confirmed, and the register is trusted and present if required |
| EscalationDirectory.MoreFilesNeverUnblock | governance_tools/escalation_authority_writer.py:560-611 | with log and register fixed, no added file of any content unblocks the release |
| EscalationDirectory.FileOrderFree | governance_tools/escalation_authority_writer.py:560-611 | the order of the files changes nothing in the assessment |
| EscalationDirectory.EmptyDirectoryIsLenient | governance_tools/escalation_authority_writer.py:502-559 | active register entries block without a directory and do not block an empty one |
| EscalationDirectory.WriteTouchesOwnPath | governance_tools/escalation_authority_writer.py:289-328 | a write leaves every path but the canonical one of its payload |
| EscalationDirectory.UntrustedFrozen | governance_tools/escalation_authority_writer.py:305-316 | a stored file that is not valid is unchanged by every later run of writes |
| EscalationDirectory.ValidCarriesId | governance_tools/escalation_authority_writer.py:289-328 | in every run from an empty directory a valid artifact lies at the path of the id it carries |
| EscalationDirectory.UntrustedBlocks | governance_tools/escalation_authority_writer.py:560-564 | while a file that is not valid is read, the directory blocks or the assessment raises |
| EscalationDirectory.WriteAgreesWithAssessment | governance_tools/escalation_authority_writer.py:318-386 | what a write reports (validity, block, reasons, errors) agrees with assessing what it stored |
| EscalationDirectory.ListedIff | governance_tools/escalation_authority_writer.py:81-86 | the path of an id is one the directory listing reads iff the folders the id names lead back to the directory |
| EscalationDirectory.PlainPathsDiffer | governance_tools/escalation_authority_writer.py:85-86 | ids without slashes never share a file |
| EscalationDirectory.SharedPathExample | governance_tools/escalation_authority_writer.py:85-86 | the ids `./e` and `e` share a file |
| EscalationDirectory.InvalidWriteIsFinalIff | governance_tools/escalation_authority_writer.py:289-328 | after storing an invalid payload the directory blocks or raises whatever is written later, with every log and register, iff its id stays inside the directory or it did so before |
| EscalationDirectory.EmptyNotForGood | governance_tools/escalation_authority_writer.py:560-611 | a directory in which nothing was stored does not block for good |
| EscalationDirectory.UnlistedWriteIsUnseen | governance_tools/escalation_authority_writer.py:289-328 | a write under an id that leaves the directory changes nothing that is read |
| EscalationDirectory.StrayWriteExample | governance_tools/escalation_authority_writer.py:289-328 | storing an invalid payload under the id `a/b` turns a missing directory, blocked by an active register, into one that does not block |
| EscalationDirectory.EscalationStore.AppendLogEntry | governance_tools/escalation_log_writer.py:72-102 | an accepted entry is appended as one line and returned; a refused one leaves the log |
| EscalationDirectory.EscalationStore.WriteRegister | governance_tools/escalation_log_writer.py:229-261 | the register is overwritten with the given ids |
| EscalationDirectory.EscalationStore.WriteAuthorityArtifact | governance_tools/escalation_authority_writer.py:289-328 | the artifact files change as the write step says, or not at all when it refuses or raises |
| Versions.NormalizeVersion | governance_tools/framework_versioning.py:121-134 | splitting, padding and checking digits gives the normal form or none |
| Versions.CompareIsTotalPreorder | governance_tools/framework_versioning.py:137-160 | on versions that parse: defined, sign-antisymmetric, transitive, zero exactly on equal normal forms |
| Versions.CompareRefinesCores | governance_tools/framework_versioning.py:137-174 | the core order decides first, and within a core no suffix ranks above every suffix |
| Versions.IsReleaseCompatible | governance_tools/framework_versioning.py:177-205 | the early-returning loop decides as the first comparator that does not accept |
| Versions.CheckAllMeaning | governance_tools/framework_versioning.py:184-205 | accepted iff every comparator accepts; otherwise the first that does not decides |
| Versions.ComparatorOrderIff | governance_tools/framework_versioning.py:184-205 | the verdict is the same for every order of the comparators iff they do not hold both one that rejects and one that gives no answer |
| Versions.RangeOrderIff | governance_tools/framework_versioning.py:177-205 | the same for range texts: two texts with the same comparators in any order get the same answer, iff not mixed |
| Versions.OrderMattersExample | governance_tools/framework_versioning.py:177-205 | the range `<1,x` rejects release 1 and `x,<1` gives no answer |
| Versions.CompatibleConvex | governance_tools/framework_versioning.py:177-205 | a release between two accepted ones in the core order is accepted |
| Versions.CompatibleIgnoresSuffix | governance_tools/framework_versioning.py:163-205 | releases of one core are accepted by the same ranges |
| Sorting.SortSorted | governance_tools/governance_version_check.py:187-187 | sorting returns a sorted permutation |
| Sorting.StrictlySortedUnique | governance_tools/governance_version_check.py:187-187 | a set has one sorted listing |
| Sorting.SortSet | governance_tools/governance_version_check.py:187-187 | a set is listed sorted, each member once, whatever order it is walked in |
| VersionCheck.AtLeastTransitive | governance_tools/governance_version_check.py:56-71 | the zero-padded comparison is transitive, over tuples of any lengths |
| VersionCheck.EvaluateFeature | governance_tools/governance_version_check.py:166-180 | a feature is on iff all requirements are met, with one migration text per unmet one |
| VersionCheck.ClassifyFeatures | governance_tools/governance_version_check.py:156-185 | the loop splits the features and gathers the migrations |
| VersionCheck.EvaluateFeatures | governance_tools/governance_version_check.py:156-187 | the reported lists are the sorted ones, migrations without repetition |
| VersionCheck.FeaturesPartition | governance_tools/governance_version_check.py:156-198 | enabled and disabled names together are the features', and migrations are missing iff the verdict is not compatible |
| VersionCheck.RaisingNeverHurts | governance_tools/governance_version_check.py:49-198 | raising manifest versions never disables a feature, adds a migration or worsens the verdict |
| Ingestion.GetNested | governance_tools/enumd_semantic_isolation.py:134-142 | the loop follows the path through objects or finds nothing |
| Ingestion.ClassifyBoundaryStatus | governance_tools/enumd_semantic_isolation.py:153-161 | a boundary failure is found iff some error that is an object or text names it; raises on errors that cannot be walked |
| Ingestion.AnalyzeCandidate | governance_tools/enumd_semantic_isolation.py:216-260 | ingestion validity, boundary status, the authority-like fields in registry order and the inducement risk, or that it raises on a malformed block |
| Ingestion.ClassifyBatch | governance_tools/enumd_semantic_isolation.py:263-285 | the conclusion from the counted hits |
| Ingestion.RunProbe | governance_tools/enumd_ingestion_contract.py:169-249 | the probe's loop gives the conclusions before and after, the downgrade, the mitigated and failed counts and the row of every sample, or raises |
| Ingestion.ContractRemovesDecision | governance_tools/enumd_ingestion_contract.py:138-166 | the contract removes exactly policy.decision from a candidate's authority-like fields |
| Ingestion.ContractKeepsStanding | governance_tools/enumd_ingestion_contract.py:129-166 | the contract changes neither ingestion validity nor boundary status, nor whether the analysis raises |
| Ingestion.DecisionsAccounted | governance_tools/enumd_ingestion_contract.py:155-163 | mitigated and failed counts add up to the candidates on which the analysis found a decision before |
| Ingestion.DowngradeIff | governance_tools/enumd_ingestion_contract.py:221-226 | afterwards no batch concludes a collision; the downgrade is achieved iff the batch did before |
| Ingestion.DowngradeWithoutMitigation | governance_tools/enumd_ingestion_contract.py:221-240 | a downgrade can be achieved with nothing mitigated |
| Ingestion.MaskedPresence | governance_tools/enumd_ingestion_contract.py:252-262 | a mask hides exactly the paths that run through it |
| Ingestion.MasksCommute | governance_tools/enumd_ingestion_contract.py:252-262 | any two masks commute, nested paths included |
| Ingestion.MaskAllPresence | governance_tools/enumd_ingestion_contract.py:265-292 | a list of masks hides exactly the paths through one of them |
| Ingestion.ApplyMasks | governance_tools/enumd_ingestion_contract.py:265-292 | the scenario's loop applies every mask |
| Ingestion.MasksNeverRaise | governance_tools/enumd_ingestion_contract.py:265-292 | masks never raise the conclusion of a batch when both runs end |
| Ingestion.MaskedAnalysisEndsIff | governance_tools/enumd_ingestion_contract.py:252-282 | exactly when the analysis of a candidate under any list of masks ends |
| Ingestion.MasksRaiseNothingIff | governance_tools/enumd_ingestion_contract.py:265-292 | a list of masks neither makes any scenario raise nor keeps one from raising, iff it holds none of four paths |
| Ingestion.MaskCanRescue | governance_tools/enumd_ingestion_contract.py:252-262 | masking a malformed `checks` or `errors` keeps the analysis from raising |
| Ingestion.MaskCanRaise | governance_tools/enumd_ingestion_contract.py:252-262 | masking the layer results or their missing fields makes an analysis raise that ended |
| Ingestion.AllMaskedIsSafe | governance_tools/enumd_ingestion_contract.py:265-292 | masking every medium and low field makes every batch safe, and raises exactly when the unmasked run does |
| EvidenceAggregation.CollectUnique | governance_tools/agents_rule_evidence_aggregation.py:101-112 | the scan keeps the first event of each reference in the window and lists the others |
| EvidenceAggregation.AggregateCandidateEvidence | governance_tools/agents_rule_evidence_aggregation.py:84-171 | the summary, with sorted duplicate-free lists, or that it raises |
| EvidenceAggregation.ScanConserves | governance_tools/agents_rule_evidence_aggregation.py:101-112 | events in the window are the counted references plus the duplicates, with multiplicity |
| EvidenceAggregation.SummaryMeaning | governance_tools/agents_rule_evidence_aggregation.py:101-116 | counted references are exactly those in the window, duplicates exactly those with two or more events there |
| EvidenceAggregation.SummaryOrderFree | governance_tools/agents_rule_evidence_aggregation.py:84-171 | references, counts and permission do not depend on event order, nor whether the aggregation raises |
| EvidenceAggregation.MoreEvidenceNeverSuppresses | governance_tools/agents_rule_evidence_aggregation.py:101-156 | with more events, in any order, and later, references only grow and permission to resurface stays |
| EvidenceAggregation.EveryResultValidates | governance_tools/agents_rule_aggregation_artifact.py:55-76 | every result validates as an active entry iff it may resurface and as a suppressed one iff not |
| EvidenceAggregation.SortInOrder | governance_tools/agents_rule_evidence_aggregation.py:103-103 | the sort is by reference and time and is stable |
| EvidenceAggregation.KeptIsEarliest | governance_tools/agents_rule_evidence_aggregation.py:103-112 | in any event order the event kept for a reference is an earliest one of the window |
| EvidenceAggregation.SpecificityOrderFreeIff | governance_tools/agents_rule_evidence_aggregation.py:114-128 | the derived specificity is the same for every order of the events iff the earliest events settle it |
| EvidenceAggregation.TieIsDecidedByInputOrder | governance_tools/agents_rule_evidence_aggregation.py:103-128 | two events of one reference and time but unlike strength: the first one given decides |
| FailureGate.ClassifyFailure | governance_tools/failure_disposition.py:173-211 | the loop returns the first rule with a matching pattern, or unknown |
| FailureGate.UnknownIsEscalated | governance_tools/failure_disposition.py:173-211 | a failure is escalated iff unknown iff no pattern of any rule matches, and none is ignored |
| FailureGate.ClassifyBatch | governance_tools/failure_disposition.py:214-254 | the pass over the failures fills results, three tables of counts, threshold flag and verdict |
| FailureGate.CountsConserved | governance_tools/failure_disposition.py:225-236 | counts by kind, by action and by confidence each sum to the number of failures |
| FailureGate.ActionsFollowKinds | governance_tools/failure_disposition.py:225-242 | in a classified batch escalated equals unknown, and every action count follows from the kinds |
| FailureGate.EvaluateDisposition | governance_tools/gate_policy.py:503-558 | the decision on a batch: blocked flag, errors and warnings in order |
| FailureGate.EvaluateGate | governance_tools/gate_policy.py:426-500 | the decision by mode and artifact state, with the inserted stale warning |
| FailureGate.GateBlocksIff | governance_tools/gate_policy.py:426-558 | exactly when the gate blocks, under every policy and artifact state; errors exactly then |
| FailureGate.GateVersusVerdict | governance_tools/gate_policy.py:503-558 | under the default policy a blocked gate implies a blocked verdict; they differ iff no production fix and one to three unknowns |
| FailureGate.CountsMonotone | governance_tools/failure_disposition.py:214-254 | more failing tests, in any order, count at least as much |
| FailureGate.MoreFailuresNeverUnblock | governance_tools/gate_policy.py:426-558 | under every policy and state further failing tests never unblock the gate |
| DriftRecorder.Recorder.Fail | governance_tools/governance_drift_checker.py:261-267 | a failure is recorded as finding, failed check and error or warning |
| DriftRecorder.Recorder.Pass | governance_tools/governance_drift_checker.py:269-272 | a pass sets a new check and changes no known one |
| DriftRecorder.Recorder.MarkStale | governance_tools/governance_drift_checker.py:609-614 | the plan check is set failed with a warning and no finding |
| DriftRecorder.FailureIsSticky | governance_tools/governance_drift_checker.py:261-272 | for every sequence of calls a check is failed at the end iff some call failed it |
| DriftRecorder.ErrorsAreCriticalFindings | governance_tools/governance_drift_checker.py:261-267 | errors are exactly the critical findings, in order; other findings and direct warnings are the warnings |
| DriftRecorder.VerdictMeaning | governance_tools/governance_drift_checker.py:691-716 | ok iff no errors iff no critical failure in any call; severity is the worst one |
| DriftRecorder.SilentFailureIff | governance_tools/governance_drift_checker.py:609-693 | the severity is ok despite a failed check iff nothing failed but the plan was stale |
| DriftRecorder.SilentFailureExample | governance_tools/governance_drift_checker.py:609-693 | a passed check and a stale plan: the verdict is ok with a check recorded as failed |
| DriftRecorder.RecordOrderFree | governance_tools/governance_drift_checker.py:261-272 | checks and verdict do not depend on the order of the calls |
| DriftRecorder.EmitMeaning | governance_tools/governance_drift_checker.py:695-711 | the signal is cleared iff nothing failed critically, written with exactly the harmed components iff there are any, else left |
| RiskSignal.SignalFile.WriteSignal | governance_tools/framework_risk_signal.py:70-96 | the file holds the new signal with unknown components filtered out |
| RiskSignal.SignalFile.ReadSignal | governance_tools/framework_risk_signal.py:101-144 | the scope, version and age guards, in order |
| RiskSignal.SignalFile.ClearSignal | governance_tools/framework_risk_signal.py:149-164 | the file is gone unless it cannot be deleted, and the result says whether it was deleted |
| RiskSignal.SignalFile.ClearSignalForSource | governance_tools/framework_risk_signal.py:167-188 | the file is removed only if it is readable, of that source and can be deleted |
| RiskSignal.SignalFile.EmitDrift | governance_tools/governance_drift_checker.py:695-711 | the end of a drift run writes, clears or leaves the signal; a clear that fails leaves it |
| RiskSignal.StandingIsStored | governance_tools/framework_risk_signal.py:70-188 | after every run the file holds exactly the write that no later step erased |
| RiskSignal.ReadableIff | governance_tools/framework_risk_signal.py:101-144 | a signal is readable iff a write stands and is at most the given hours old |
| RiskSignal.ForeignClearsInvisible | governance_tools/framework_risk_signal.py:167-188 | the scoped clears of a source that never wrote change nothing in any run |
| RiskSignal.ComputeOverrides | governance_tools/framework_risk_signal.py:193-220 | the loop merges to the level of greatest rank and the disjunction of the flags, each present iff set |
| RiskSignal.OverridesMonotone | governance_tools/framework_risk_signal.py:193-224 | more components only strengthen the overrides |
| RiskSignal.OverridesOrderFree | governance_tools/framework_risk_signal.py:193-224 | with a table that gives each rank one level, merged overrides depend on the set of components only |
| RiskSignal.TableOrderFree | governance_tools/framework_risk_signal.py:51-59 | for the table of the source, two listings of the same components give equal overrides |
| RiskSignal.CriticalDriftRaisesSessions | runtime_hooks/core/session_start.py:128-142 | a critical failure of a check with a component keeps sessions at L1 or above for 48 hours, until rewritten, cleared or cleared by the drift check |
| RiskSignal.DriftErasesOrLeaves | governance_tools/governance_drift_checker.py:695-711 | a clean run erases the signal of every source; critical failures without component leave any signal standing |
| Sections.ParseGovernanceSections | governance_tools/agents_calibration_maturity.py:61-90 | the loops build the dictionary of all sections with their content |
| Sections.FindEmptyGovernanceSections | governance_tools/governance_drift_checker.py:156-196 | the loops report what the early-exit scan reports |
| Sections.PlaceholderAgentsSections | governance_tools/adopt_governance.py:277-315 | the loops report the sections whose content all begins with "N/A" |
| Sections.ProbeIsExact | governance_tools/governance_drift_checker.py:174-191 | the scan of one section stops early iff the fully parsed content holds a line that is no stub |
| Sections.ScannerAgrees | governance_tools/governance_drift_checker.py:156-196 | the scanner reports at least the stub sections, and more exactly when the document is not tidy |
| Sections.EarlyExitAgreesIff | governance_tools/governance_drift_checker.py:156-196 | with distinct keys the scanner's list is that of the full parser iff the document is tidy |
| Sections.UntidyFamily | governance_tools/governance_drift_checker.py:156-196 | anchor, real content, anchor again: the scanner reports a key whose parsed content is real |
| Sections.UntidyExample | governance_tools/governance_drift_checker.py:156-196 | a three-line document with a lawful reader on which the two scanners differ |
| Sections.RepeatedKeyDiffers | governance_tools/agents_calibration_maturity.py:61-90 | with a repeated key the parser keeps the last content while the scanner looks at each |
| Sections.StubsArePlaceholders | governance_tools/adopt_governance.py:311-314 | a stub section is empty or reported by the placeholder scanner |
| Braces.FindEnd | governance_tools/domain_validator_loader.py:74-84 | the loop returns the end of the balanced segment from the brace, or none when the depth never returns to zero |
| Braces.ExtractFunctionBlocks | governance_tools/domain_validator_loader.py:69-87 | one block per match: the stripped text up to its segment's end, or up to the brace without one |
| Braces.SegmentUnique | governance_tools/domain_validator_loader.py:74-84 | the segment is the shortest balanced text from the brace, and the only one |
| Braces.BlockEndsAtItsBrace | governance_tools/domain_validator_loader.py:74-84 | nested code printed anywhere in a text ends where the matcher says |
| Braces.SegmentIsBlock | governance_tools/domain_validator_loader.py:74-84 | segments are exactly the printed blocks of nested code |
| ContractBlock.ParseContractFields | governance_tools/contract_validator.py:68-78 | the loop collects the fields of the lines |
| ContractBlock.FieldsAhead | governance_tools/contract_validator.py:62-64 | the plain pattern matches rendered fields to their end and no further |
| ContractBlock.LineParses | governance_tools/contract_validator.py:68-78 | a rendered line parses to its key and its stripped value, which may hold further signs |
| ContractBlock.ExtractsOwnBlockIff | governance_tools/contract_validator.py:57-65 | extraction from a governed prompt returns the rendered block iff the prompt holds no fenced contract, else that one |
| ContractBlock.FencedPromptExample | governance_tools/contract_validator.py:57-65 | a prompt with a fenced contract: extraction returns it, and no contract round trips |
| ContractBlock.BlockRecovers | governance_tools/contract_renderer.py:38-43 | parsing a rendered block recovers every field and no other |
| ContractBlock.GovernedPromptRoundTrip | governance_tools/governed_prompt.py:27-29 | without a fenced contract in the prompt every complete contract without line boundaries in its values survives, and among trimmed ones only these |
| ContractBlock.BrokenValueIsLost | governance_tools/contract_validator.py:68-78 | a value with an inner line boundary is recovered from no text |

## Left out

- Files, git, environment, clocks, argument parsing, printing and human-readable reports: contents, existence and times are passed in.
- SHA-256, JSON encoding and the regular-expression engine: function parameters with stated laws; anchors of sections and definitions of C functions are such parameters, the contract patterns are modelled character by character.
- JSON equality of numbers and booleans as Python has it (`True == 1`), and the order in which an object lists its keys.
- Exact texts and line numbers of the flat-YAML parser's errors, and the wording of comments in a baseline.
- Ratios in batch conclusions and ages in hours are exact; floating-point rounding is not modelled.
- Individual drift checks, and the early return when the baseline is missing, whose signal is the one the general emission would write.
- Loading of gate policies and of test-result artifacts: both enter as values.
- EscalationLog.AssessLogWriterIntegrity: the texts of its block reasons are kept as the tally they come from.
- EscalationDirectory.JudgeRecords: the order of reasons behind the records' own is not stated, because two of the loops walk a dictionary and a set.
- EscalationDirectory.AssessAuthorityDirectory: a log that exists but cannot be opened, and the labels and paths repeated in the report, are not modelled.
- Symbolic links, names the file system refuses, and ids starting with two slashes: the path of an id is resolved segment by segment.
- Versions.NormalizeVersion: digits outside ASCII count as no digits, where the source accepts them or raises.
- Ingestion.AnalyzeCandidate: the sample id, source path and wording of notes are not modelled, and candidates are objects.
- Ingestion.RunProbe: files that do not parse, which the source reports and skips, are not among the candidates.
- Ingestion.Reinterpret: the branch for a known decision without a scope, which no entry of the table reaches.
- EvidenceAggregation.SummaryOrderFree: the derived specificity is excluded, because it depends on event order; SpecificityOrderFreeIff says exactly when.
- EvidenceAggregation.MoreEvidenceNeverSuppresses: both runs must end without an exception, because a new event may itself be invalid.
- RiskSignal.SignalFile.ReadSignal: documents whose fields have other JSON types than the writer gives them are not represented.
- RiskSignal.OverridesOrderFree: levels of one rank must be the same level, as TableOrderFree shows for the table of the source; the merge keeps the first of two unlike levels of one rank.
- Sections.EarlyExitAgreesIff: keys must be distinct; with repeated keys the two scanners differ by design, as RepeatedKeyDiffers shows.
- Baseline refresh does not carry over `plan_freshness_threshold_days` or custom `contract_required_fields`, and nothing is claimed for them.
- Harness measurements, claim enforcement, authority loading, cost and architecture reports, and the application code around these tools.
