# A verified model of the SDLC agent pipeline, the chat session store and the echo agent

This project models three parts of an agent playground in Dafny:

- **The SDLC pipeline.** A task or feature moves through planning, building, code review, UI review, testing and QA. Each phase is carried out by an LLM agent. The model covers:
  - the six agents' *decoders*: what each agent makes of the text its run returns (status markers, `FIX_REQUIRED` flags, `- id:`/`- severity:` … finding records, bulleted and free-text sections, test counts) and of the files its tool calls wrote;
  - the parallel validator, which merges and deduplicates the findings of several instances of one agent, or keeps those a quorum agrees on;
  - the fix loops, which alternate builder fixes with re-validation until no findings are left or the same finding ids come back three times;
  - the task orchestrator (`process_task`, `move_to_stage`) and the feature orchestrator (`process_feature`, `to_summary`).
- **The chat session manager** of the backend: sessions, per-repository session lists, messages, and default session names numbered per repository.
- **The echo agent's** text transformation and the echo tool built on it.

An agent run is not executed. It is an input: `AgentIO.Reply` is either the run's content blocks (text and tool calls) or the message of the exception it raised. A fix loop that in the program runs until it converges is driven by a finite *script* of rounds, where each round gives the builder's outcome and the validator's or debugger's verdict. When the script runs out, the result says so (`Unfinished`, `ScriptEnded`, `Stalled`). Uuids become parameters.

The modules follow the source:

- `text` and `wrappers` are shared helpers.
- `findings` holds the shared `Finding` record.
- `scanner` is the findings scanner every agent copies, parameterised by a *dialect*: its trigger words, the fields it reads and its defaults.
- `sections` reads bulleted sections and free-text sections.
- There is one module per agent, then the validator, the two fix-loop modules, the two orchestrators, `sessions` and `echo`.

Most decoders come with a round-trip lemma. Text rendered in the format the agent's prompt asks for decodes back to what was rendered. This is the independent partner of each decoder.

## Model

| member | source | states |
|---|---|---|
| FindingScanner.MatchField | agents/sdlc/agents/reviewer.py:124-139 | the first field, in testing order, whose `- name:` or `name:` prefix the line carries; none when no such prefix is present |
| FindingScanner.Kind | agents/sdlc/agents/reviewer.py:108-124 | a line is a trigger exactly when its upper-cased strip holds a trigger word; a heading starts with `#`; a field line carries its field's prefix; any other line carries no field prefix |
| FindingScanner.ScanAppend | agents/sdlc/agents/reviewer.py:108-139 | scanning concatenated lines is the same as scanning the first part and then the second from where it stopped |
| FindingScanner.TriggerLineEnters | agents/sdlc/agents/reviewer.py:111-114 | a trigger line opens the section and touches neither the pending record nor the flushed records |
| FindingScanner.OutsideIgnored | agents/sdlc/agents/reviewer.py:120-121 | outside the section, every line except a trigger line has no effect |
| FindingScanner.HeadingLeaves | agents/sdlc/agents/reviewer.py:116-118 | a `#` heading without FINDING closes the section and changes nothing else |
| FindingScanner.FieldLineEffect | agents/sdlc/agents/reviewer.py:124-139 | an id line flushes a non-empty pending record and starts a new record; other field lines overwrite their field with the stripped text after the first `:` |
| FindingScanner.CreateFinding | agents/sdlc/agents/reviewer.py:148-158 | recorded fields are kept; each absent field takes its default (id = prefix + 3-digit zero-padded index, location `unknown`, fix agent `builder`, empty fix code) |
| FindingScanner.ParseFindings | agents/sdlc/agents/reviewer.py:99-151 | one finding per flushed record, in order, each built from its record and its position; as many findings as id lines inside the section, plus one when field lines come before the first id line; none when no line holds a trigger word; every finding after the first carries the value of the id line that started it, so only the first can take the default id, which is the prefix followed by `000`; a dialect that does not read `fix_code` (QA) yields only empty fix codes |
| FindingScanner.RecordCount | agents/sdlc/agents/reviewer.py:124-144 | the number of records is the number of id lines inside the section, plus one when field lines come before the first id line |
| FindingScanner.RecordsWellShaped | agents/sdlc/agents/reviewer.py:124-144 | every record after the first holds an id, and records hold only fields the dialect reads |
| FindingScanner.NoTriggerNoRecords | agents/sdlc/agents/reviewer.py:108-146 | a response in which no line holds a trigger word yields no records |
| FindingScanner.RoundTrip | agents/sdlc/agents/reviewer.py:99-158 | findings rendered in the prompt's `- field: value` layout after a heading are read back exactly and in order, whatever section-free lines come before them |
| FindingScanner.FlaggedReport | agents/sdlc/agents/reviewer.py:99-158 | a report that starts with the `FIX_REQUIRED: TRUE` line and then lists findings mentions the flag and reads back as those findings |
| Sections.UnnamedSectionEmpty | agents/sdlc/agents/qa.py:198-213 | a response in which no line names the section yields no items |
| Sections.HeadingOpens | agents/sdlc/agents/qa.py:204-207 | a `### NAME` heading opens the bulleted section |
| Sections.SectionAmid | agents/sdlc/agents/qa.py:198-213 | a bulleted section reads back as its items in order, wherever it stands among lines that do not name it, when a heading or the end follows it |
| Sections.BulletsRoundTrip | agents/sdlc/agents/qa.py:198-213 | a response that is one rendered bulleted section reads back as its items |
| Sections.ProseAmid | agents/sdlc/agents/debugger.py:212-227 | a free-text section reads back as its lines joined with single blanks, wherever it stands among lines that do not name it |
| Sections.ProseRoundTrip | agents/sdlc/agents/debugger.py:212-227 | a response that is one free-text section reads back as its lines joined with blanks |
| AgentIO.MentionedByLine | agents/sdlc/agents/reviewer.py:253-264 | a marker on one line of a response is found by the whole-response, case-insensitive test |
| AgentIO.UnmentionedLines | agents/sdlc/agents/reviewer.py:253-264 | a marker without line breaks that no line mentions is not mentioned by the joined response |
| Reviewer.ApprovedMarkerSubsumes | agents/sdlc/agents/reviewer.py:254 | the `### STATUS: APPROVED` alternative can only hold where `STATUS: APPROVED` already does |
| Reviewer.StatusOf | agents/sdlc/agents/reviewer.py:253-258 | APPROVED exactly when `STATUS: APPROVED` is mentioned; NEEDS_CHANGES exactly when it is not but `NEEDS_CHANGES` is; otherwise PENDING |
| Reviewer.Review | agents/sdlc/agents/reviewer.py:160-298 | success exactly when the run completed; a raised run gives the default result with the error; otherwise the status `StatusOf` reads (approved exactly on the approval marker), the flag from TRUE, then FALSE, then the status, findings only when flagged, and the suggestions |
| Reviewer.ValidateFix | agents/sdlc/agents/reviewer.py:300-392 | only the TRUE marker counts; it alone sets the status and selects findings |
| Reviewer.StatusOfReview | agents/sdlc/agents/reviewer.py:253-258 | a rendered review reads as NEEDS_CHANGES when it asks for a fix and as APPROVED otherwise |
| Reviewer.FlagOfReview | agents/sdlc/agents/reviewer.py:260-266 | a rendered review carries the TRUE marker exactly when it asks for a fix |
| Reviewer.FindingsOfReview | agents/sdlc/agents/reviewer.py:268-271 | a review asking for a fix reads back its findings, past the status, flag and suggestion lines |
| Reviewer.SuggestionsOfReview | agents/sdlc/agents/reviewer.py:273-283 | a rendered review reads back its suggestions in order |
| Reviewer.ReviewRoundTrip | agents/sdlc/agents/reviewer.py:160-298 | a review written in the prompt's format decodes to its status, flag, findings (when flagged) and suggestions |
| Reviewer.ValidateRoundTrip | agents/sdlc/agents/reviewer.py:300-392 | the re-validation decodes the same rendered review by its flag alone |
| Tester.SearchFrom | agents/sdlc/agents/tester.py:216-218 | the leftmost position at or after the start where the key, optional whitespace and a digit match, and none when there is none |
| Tester.TestCounts | agents/sdlc/agents/tester.py:209-231 | passed and failed are the matched numbers (0 without a match); total is its matched number, or passed + failed when that reads as zero |
| Tester.LabelledCount | agents/sdlc/agents/tester.py:216-225 | a count line `Key: n` reads back as n when the key's first letter does not occur earlier in the text |
| Tester.CountsRoundTrip | agents/sdlc/agents/tester.py:209-231 | the printed Total/Passed/Failed block reads back as its counts, with the total replaced by passed + failed when it is zero |
| Tester.SubtotalCounts | agents/sdlc/agents/tester.py:216 | the key is not anchored to a word, so `Subtotal: 5` reads as a total of 5 |
| Tester.TestFiles | agents/sdlc/agents/tester.py:173-178 | a path is listed exactly when some `Write` call with a non-empty path whose lower case holds `test` wrote it |
| Tester.CreateAndRunTests | agents/sdlc/agents/tester.py:117-207 | success exactly when the run completed; a raised run gives the defaults with the error; otherwise the flag, the counts, findings only when flagged, and the test files |
| Tester.RunTests | agents/sdlc/agents/tester.py:291-357 | the same decoding without test-file tracking |
| Tester.ValidateFix | agents/sdlc/agents/tester.py:359-448 | success exactly when the re-run completed; then the summary is the reply text, no test files are reported, the flag is the `FIX_REQUIRED: TRUE` marker, findings only when flagged, and the counts are those `TestCounts` reads |
| Tester.ReportedFailures | agents/sdlc/agents/tester.py:185-190 | a flagged report of failures decodes as flagged, with those failures as findings |
| Debugger.StatusOf | agents/sdlc/agents/debugger.py:171-177 | ROOT_CAUSE_FOUND when that marker is mentioned; NEEDS_MORE_INFO when only that one is; INCONCLUSIVE otherwise |
| Debugger.Debug | agents/sdlc/agents/debugger.py:95-210 | success exactly when the run completed; a raised run keeps the default `fix_required = True`; otherwise status, flag, root cause, steps, files and, when flagged, findings |
| Debugger.AnalyzeFailure | agents/sdlc/agents/debugger.py:310-382 | status, flag, root cause and flagged findings only |
| Debugger.ReportedCause | agents/sdlc/agents/debugger.py:179-192 | a flagged report decodes as flagged with those findings |
| Debugger.StepsRoundTrip | agents/sdlc/agents/debugger.py:185 | rendered investigation steps read back as those steps |
| Debugger.RootCauseRoundTrip | agents/sdlc/agents/debugger.py:182 | a root-cause paragraph reads back as its lines joined with blanks |
| Debugger.LaterNumbersSkipped | agents/sdlc/agents/debugger.py:229-251 | a numbered line starting with a digit other than 1 is not collected as an item |
| QA.StatusOf | agents/sdlc/agents/qa.py:161-169 | PASSED when `QA_STATUS: PASSED` is mentioned; PARTIAL when only `QA_STATUS: PARTIAL` is; otherwise FAILED when flagged and PASSED when not |
| QA.FlaggedFindings | agents/sdlc/agents/qa.py:176-178 | the findings are read only when flagged, and never carry fix code |
| QA.Check | agents/sdlc/agents/qa.py:97-196 | success exactly when the run completed; a raised run gives the defaults with the error; otherwise the status, flag, four issue lists and findings |
| QA.ValidateFix | agents/sdlc/agents/qa.py:270-360 | status, flag and findings; the issue lists stay empty |
| QA.ReportedIssues | agents/sdlc/agents/qa.py:161-178 | a flagged report with no explicit status decodes as FAILED, with those issues as findings |
| QA.ConsoleErrorsRoundTrip | agents/sdlc/agents/qa.py:171 | rendered console errors read back as those errors |
| UIReviewer.StatusFor | agents/sdlc/agents/ui_reviewer.py:129 | NEEDS_CHANGES exactly when a fix is required, APPROVED exactly when not |
| UIReviewer.Review | agents/sdlc/agents/ui_reviewer.py:55-147 | success exactly when the run completed; otherwise the flag, the status it implies, the screenshot, the three issue lists and flagged findings |
| UIReviewer.ValidateFix | agents/sdlc/agents/ui_reviewer.py:224-314 | flag, status and findings; the lists stay empty |
| UIReviewer.ReportedIssues | agents/sdlc/agents/ui_reviewer.py:118-129 | a flagged report reads back as its issues with status NEEDS_CHANGES |
| UIReviewer.LayoutIssuesRoundTrip | agents/sdlc/agents/ui_reviewer.py:122 | rendered layout issues read back as those issues |
| Builder.Paths | agents/sdlc/agents/builder.py:89-100 | a path is listed exactly when some call to the tool carried it |
| Builder.Dedup | agents/sdlc/agents/builder.py:104-106 | the same members as the input, each once |
| Builder.Build | agents/sdlc/agents/builder.py:50-115 | success exactly when the run completed; a raised run gives no files and the error; otherwise the created and modified files are the distinct Write and Edit paths |
| Builder.IgnoredCall | agents/sdlc/agents/builder.py:89-102 | a further text block, a call to another tool, or one without a path, changes neither file list |
| ParallelValidator.CreateAgents | agents/sdlc/parallel_validator.py:82-84 | `count` instances, none for a count below one |
| ParallelValidator.DedupDistinct | agents/sdlc/parallel_validator.py:159-165 | the kept findings have distinct keys, unseen before, drawn from the input |
| ParallelValidator.DedupFirst | agents/sdlc/parallel_validator.py:159-165 | each kept finding is the first one with its key |
| ParallelValidator.DedupCovers | agents/sdlc/parallel_validator.py:159-165 | every key of the input is either already seen or kept |
| ParallelValidator.Merge | agents/sdlc/parallel_validator.py:127-189 | agent count = instances that returned; success iff one did; fix required iff findings remain; an error string iff some instance raised; findings are the first of each key over all returned findings |
| ParallelValidator.ErrorsListed | agents/sdlc/parallel_validator.py:145-148 | every exception contributes `Agent i: message` |
| ParallelValidator.ExceptionsAddNothing | agents/sdlc/parallel_validator.py:145-148 | an instance that raised contributes no findings |
| ParallelValidator.SingleResultUnchanged | agents/sdlc/parallel_validator.py:127-189 | a lone result whose keys are already distinct comes back unchanged |
| ParallelValidator.ConcatenatedKeysCollide | agents/sdlc/parallel_validator.py:162 | two findings with different location and problem can share the concatenated key, and the second is dropped |
| ParallelValidator.TallyKeys | agents/sdlc/parallel_validator.py:219-231 | the tally holds exactly the findings' keys, each once in insertion order |
| ParallelValidator.TallyValues | agents/sdlc/parallel_validator.py:219-231 | each entry holds its key's count and the latest finding with that key |
| ParallelValidator.Consensus | agents/sdlc/parallel_validator.py:191-246 | agent count, success and flag as in the merge, and no error |
| ParallelValidator.ConsensusKeeps | agents/sdlc/parallel_validator.py:219-237 | a key survives exactly when it occurs at least `min_agreement` times over all returned findings, represented by its last finding |
| ParallelValidator.ReturnedCounted | agents/sdlc/parallel_validator.py:145-158 | the merge's count of successful instances equals the count of instances whose run returned |
| ParallelValidator.AllReturned | agents/sdlc/parallel_validator.py:145-148 | every outcome is counted as successful exactly when no instance raised |
| ParallelValidator.GatheredFrom | agents/sdlc/parallel_validator.py:145-158 | a finding is gathered exactly when some instance returned it |
| ParallelValidator.MergedKey | agents/sdlc/parallel_validator.py:127-165 | a key is among the merged findings exactly when some instance returned a finding with that key |
| ParallelValidator.MergedError | agents/sdlc/parallel_validator.py:145-148 | an instance i that raised makes the merge report an error containing `Agent i: message` |
| ParallelValidator.OutcomesMerged | agents/sdlc/parallel_validator.py:127-189 | the merge of instances 0 .. n-1 counts those that returned, reports an error exactly when one raised and names each that did, and keeps exactly the keys the returned findings have |
| ParallelValidator.ValidateParallel | agents/sdlc/parallel_validator.py:86-125 | over the `count` created instances: the agent count is the number whose run returned; an error exactly when one raised, containing `Agent i: message` for each instance i that did; the merged keys are exactly the keys of the findings the returning instances produced; the kept findings have distinct keys, each the first gathered finding with its key; success exactly when some instance returned; a fix is required exactly when findings remain |
| FixLoop.Recent | agents/sdlc/orchestrator.py:291-292 | the last three signatures (or all of them), in order |
| FixLoop.DeadlockRule | agents/sdlc/orchestrator.py:289-294 | the counting test holds exactly when the three most recent signatures all equal the current id-set |
| FixLoop.Entry | agents/sdlc/orchestrator.py:284-308 | no findings: FIXED with nothing; deadlock: MAX_LOOPS_REACHED with the findings and a stats record; otherwise the pass proceeds |
| FixLoop.Attempt | agents/sdlc/orchestrator.py:310-368 | a failed fix continues only with the debugger's flagged non-empty findings, else FAILED; an applied fix ends FIXED on a clean verdict, else continues with the verdict's findings, the fixed count moving by the difference |
| FixLoop.Loop | agents/sdlc/orchestrator.py:253-370 | FIXED returns nothing; other exits return findings; FAILED records no stats; stats name the phase, the remaining count and the passes run |
| FixLoop.RunFixLoop | agents/sdlc/orchestrator.py:253-370 | no initial findings: FIXED at once; the loops run counted in stats is the passes plus one at a deadlock |
| FixLoop.EmptyValidationEnds | agents/sdlc/orchestrator.py:284-370 | a verdict that asks for fixes but lists none ends the loop at the next entry as FIXED, with no stats |
| FixLoop.StuckFindings | agents/sdlc/orchestrator.py:289-308 | with the same non-empty ids three times, three fixes run and the fourth entry is the deadlock, recording four loops |
| FixLoop.FixedAccountsForAll | agents/sdlc/orchestrator.py:342-368 | with successful fixes, fixed plus remaining in the stats equals the issues open on entry |
| FixLoop.AllInitialFixed | agents/sdlc/orchestrator.py:342-353 | a FIXED loop whose verdicts always name their findings reports every initial finding fixed |
| FixLoop.CrashedDiagnosisFails | agents/sdlc/orchestrator.py:322-334 | a debugger that raised sends a failed fix to FAILED |
| FixLoop.CrashedReviewCountsAsFixed | agents/sdlc/agents/reviewer.py:388-392 | a re-review that raised carries no fix flag, so the loop ends FIXED |
| FeatureFixLoop.Loop | agents/sdlc/feature_orchestrator.py:430-478 | no findings: returns nothing with the record untouched; a clean verdict returns nothing and sets fixed to found; the recorded loop count follows the passes; fixed + remaining stays equal to found |
| FeatureFixLoop.RunFeatureFixLoop | agents/sdlc/feature_orchestrator.py:430-604 | the four per-phase loops: nothing to fix returns at once; fix loops = passes run; the fixed/found balance is kept |
| FeatureFixLoop.CleanVerdict | agents/sdlc/feature_orchestrator.py:470-472 | a clean verdict overwrites the fixed count with the found count |
| FeatureFixLoop.BuildIgnored | agents/sdlc/feature_orchestrator.py:461-476 | the builder's results never change the run; only the verdicts matter |
| FeatureFixLoop.AgreesWithTaskLoop | agents/sdlc/feature_orchestrator.py:430-478 | with fixes that always succeed, a feature loop returns what the task loop returns, after as many passes |
| FeatureFixLoop.StuckPhase | agents/sdlc/feature_orchestrator.py:445-476 | three passes with the same ids return the third verdict's findings after three fix loops |
| Orchestrator.Fail | agents/sdlc/orchestrator.py:532-536 | the exception branch: FAILED with the message, appended to the trace |
| Orchestrator.PhaseLoop | agents/sdlc/orchestrator.py:428-514 | a phase's loop runs exactly when the merged result asks for fixes and lists some |
| Orchestrator.Recorded | agents/sdlc/orchestrator.py:301-350 | the task gains at most one stats record, appended, and nothing else changes |
| Orchestrator.QaPhase | agents/sdlc/orchestrator.py:497-531 | a QA loop that returns findings still open gives PARTIAL with `QA: n issues remaining after max loops`, n being how many remain; a loop that did not run or left nothing open gives SHIPPED; the trace runs from QA_CHECKING |
| Orchestrator.TestPhase | agents/sdlc/orchestrator.py:471-496 | the testing loop's outcome is not consulted; once its loop settles, the QA loop decides PARTIAL (with the open count) or SHIPPED |
| Orchestrator.UiPhase | agents/sdlc/orchestrator.py:449-470 | UI review only when files were created; its loop's outcome is not consulted, and once the later loops settle the QA loop decides the end |
| Orchestrator.ReviewPhase | agents/sdlc/orchestrator.py:417-447 | a failed merged review ends FAILED with `Review failed: …` after REVIEWING; a review loop that ends FAILED ends the task FAILED with `Code review fix-loop failed`; FAILED arises in no other way; otherwise the QA loop decides the end |
| Orchestrator.BuildPhase | agents/sdlc/orchestrator.py:401-416 | a failed build ends FAILED with `Building failed: …`; otherwise the builder's file lists replace the planner's and review failures end the task FAILED with their messages |
| Orchestrator.PlanPhase | agents/sdlc/orchestrator.py:384-400 | a failed plan ends FAILED with `Planning failed: …`; otherwise the spec and file lists go on the task, and build and review failures end FAILED with their messages and status traces |
| Orchestrator.ProcessTask | agents/sdlc/orchestrator.py:372-383 | an unknown id raises before anything changes; a known one runs the phases |
| Orchestrator.TaskOutcomes | agents/sdlc/orchestrator.py:372-536 | FAILED only in planning, building or review, with the statuses up to there; otherwise SHIPPED after the full status sequence, or PARTIAL. A run that reaches QA ends PARTIAL exactly when the QA loop left findings open, with their number in the error, and SHIPPED exactly when it left none |
| Orchestrator.BuildingFailure | agents/sdlc/orchestrator.py:411-412 | a failed build gives trace [PLANNING, BUILDING, FAILED] and the building error |
| Orchestrator.ReviewFailure | agents/sdlc/orchestrator.py:424-425 | a failed merged review gives trace [PLANNING, BUILDING, REVIEWING, FAILED] and the review error |
| Orchestrator.ReviewLoopFailure | agents/sdlc/orchestrator.py:440-447 | a code-review fix loop that ends FAILED gives trace [PLANNING, BUILDING, REVIEWING, FAILED] and `Code review fix-loop failed` |
| Orchestrator.PlanningFailure | agents/sdlc/orchestrator.py:394-395 | a failed plan gives trace [PLANNING, FAILED] and the planning error |
| Orchestrator.CleanPipelineShips | agents/sdlc/orchestrator.py:372-531 | with no validator asking for fixes the task ships, adds no loop stats, and has a UI phase exactly when files were created |
| Orchestrator.MergedSuccessIgnored | agents/sdlc/orchestrator.py:449-526 | the `success` flags of the UI, test and QA merges never affect the run |
| Orchestrator.ShippedTrace | agents/sdlc/orchestrator.py:385-527 | the statuses of a shipped run, with UI_REVIEWING exactly when the UI phase runs |
| Orchestrator.MoveToStage | agents/sdlc/orchestrator.py:685-731 | an unknown id raises; build needs a spec and review needs files; build keeps the builder's files; review, test and QA only set the status; plan runs the whole pipeline; any other stage changes nothing |
| Orchestrator.BlocksNameEveryFinding | agents/sdlc/orchestrator.py:540-548 | every finding gets its own `## Fix Required: <id>` heading |
| Orchestrator.FixSpecComplete | agents/sdlc/orchestrator.py:538-564 | the fix spec names every finding and carries the first 1000 characters of the spec |
| FeatureOrchestrator.UiFileIff | agents/sdlc/feature_orchestrator.py:420-428 | a path is a UI file exactly when its lower case contains one of the indicators |
| FeatureOrchestrator.IndicatorAnywhere | agents/sdlc/feature_orchestrator.py:420-428 | any path containing an indicator, wherever it stands, is a UI file |
| FeatureOrchestrator.UiFileIgnoresCase | agents/sdlc/feature_orchestrator.py:427 | upper-casing a path does not change whether it is a UI file |
| FeatureOrchestrator.UiFiles | agents/sdlc/feature_orchestrator.py:315 | exactly the created files that are UI files |
| FeatureOrchestrator.CheckPhase | agents/sdlc/feature_orchestrator.py:286-312 | a phase record whose loop runs only on a flagged non-empty verdict; found = the findings' count then, else 0; fixed + remaining = found |
| FeatureOrchestrator.Extend | agents/sdlc/feature_orchestrator.py:307-312 | the phase record is appended, the remaining issues are extended, and the issue balance is kept |
| FeatureOrchestrator.Chain | agents/sdlc/feature_orchestrator.py:286-408 | a balanced phase record followed by a run that continues the extended result continues the original result |
| FeatureOrchestrator.QaStage | agents/sdlc/feature_orchestrator.py:371-408 | QA is recorded, then the result is finalised: PARTIAL iff issues remain, else SUCCESS, with the files, test files and assumptions set |
| FeatureOrchestrator.TestStage | agents/sdlc/feature_orchestrator.py:341-369 | the testing phase is recorded exactly when tests are not skipped |
| FeatureOrchestrator.UiStage | agents/sdlc/feature_orchestrator.py:314-339 | the UI phase is recorded exactly when some created file is a UI file |
| FeatureOrchestrator.ReviewStage | agents/sdlc/feature_orchestrator.py:286-312 | code review is always recorded, and the later stages follow |
| FeatureOrchestrator.BuildStage | agents/sdlc/feature_orchestrator.py:264-284 | a failed build appends a failed `building` record and ends FAILED with `Building failed: …`; otherwise building is recorded with the builder's files |
| FeatureOrchestrator.ProcessFeature | agents/sdlc/feature_orchestrator.py:207-418 | the exact FAILED results of a failed plan or build; otherwise the phase names follow the stages, the open issues balance the records, and each record carries the files handed to it |
| FeatureOrchestrator.PlanningSkipped | agents/sdlc/feature_orchestrator.py:242 | planning is skipped exactly when asked and a non-empty spec is given |
| FeatureOrchestrator.PhasesThatRun | agents/sdlc/feature_orchestrator.py:242-396 | planning iff it runs; UI review iff a created file is a UI file; testing iff not skipped; building, code review and QA always |
| FeatureOrchestrator.UiReviewsUiFiles | agents/sdlc/feature_orchestrator.py:315-324 | the UI review record's files are exactly the created UI files |
| FeatureOrchestrator.Detail | agents/sdlc/feature_orchestrator.py:81-83 | a phase line carries a detail exactly when fix loops ran |
| FeatureOrchestrator.SectionItem | agents/sdlc/feature_orchestrator.py:86-108 | a summary section's item k is written as `- item` two lines below the section's start |
| FeatureOrchestrator.SummaryShape | agents/sdlc/feature_orchestrator.py:72-84 | the summary opens with the four header lines, then one line per phase |
| FeatureOrchestrator.IssueLineAt | agents/sdlc/feature_orchestrator.py:98-102 | each open issue has its own `- id: problem at location` line |
| FeatureOrchestrator.SummaryListsOpenFindings | agents/sdlc/feature_orchestrator.py:62-113 | the summary names every remaining issue's id |
| Sessions.EmptyValid | backend/sessions.py:79-83 | a new manager satisfies the store invariant: repository lists are duplicate-free and name only their repository's sessions |
| Sessions.ActiveCount | backend/sessions.py:303-306 | never more than the total count |
| Sessions.Get | backend/sessions.py:130-132 | the session exactly when the id is known |
| Sessions.RepoSessionsOfValid | backend/sessions.py:134-141 | in a valid store, a repository's sessions are those its list names, in order, and exactly the stored sessions of that repository |
| Sessions.Create | backend/sessions.py:94-128 | a new IDLE session without messages or agent; a truthy name is used as given, otherwise `Chat n` with the repository's counter advanced to n; the id is appended to the repository's list |
| Sessions.CreateFresh | backend/sessions.py:94-128 | with a fresh id the invariant is kept, the count grows by one and the repository's sessions gain the new one at the end |
| Sessions.CreateKeepsValid | backend/sessions.py:94-128 | creating under an unused id keeps every session filed under its own id and in its repository's duplicate-free list |
| Sessions.DefaultNamesCount | backend/sessions.py:107-111 | the default name is `Chat ` + the counter plus one |
| Sessions.AddMessage | backend/sessions.py:143-181 | an unknown id gives no message and no change; otherwise exactly one message is appended, with the tool calls defaulting to none |
| Sessions.AppendToLast | backend/sessions.py:183-202 | succeeds exactly when the session exists and has a message; otherwise nothing changes |
| Sessions.AppendTouchesLastOnly | backend/sessions.py:194-199 | only the last message's content changes, by the appended text |
| Sessions.AppendTwice | backend/sessions.py:183-202 | two appends equal one append of both texts |
| Sessions.SetAgent | backend/sessions.py:204-224 | succeeds exactly for known ids; the status becomes ACTIVE for a truthy agent and IDLE otherwise |
| Sessions.SetStatus | backend/sessions.py:226-236 | succeeds exactly for known ids and sets the status |
| Sessions.Archive | backend/sessions.py:250-252 | succeeds exactly for a known id; then that session alone changes, and only its status, to ARCHIVED; an unknown id changes nothing; the ids, repository lists and counters stay as they were |
| Sessions.Rename | backend/sessions.py:238-248 | succeeds exactly for known ids and sets the name |
| Sessions.SetAgentIsLocal | backend/sessions.py:204-224 | only the named session changes, and the invariant is kept |
| Sessions.SetStatusIsLocal | backend/sessions.py:226-236 | only the named session changes, and the invariant is kept |
| Sessions.RenameIsLocal | backend/sessions.py:238-248 | only the named session changes, and the invariant is kept |
| Sessions.AppendIsLocal | backend/sessions.py:183-202 | only the named session changes, and the invariant is kept |
| Sessions.AddMessageIsLocal | backend/sessions.py:143-181 | only the named session changes, and the invariant is kept |
| Sessions.SetAgentActiveCount | backend/sessions.py:204-224 | a truthy agent makes the session count as active |
| Sessions.Delete | backend/sessions.py:254-280 | an unknown id gives false and no change; otherwise the session is removed and dropped from its repository's list, with other lists and the name counters untouched |
| Sessions.DeleteKeepsOthers | backend/sessions.py:254-280 | deleting keeps the invariant and every other session unchanged |
| Sessions.ListsShrink | backend/sessions.py:271-277 | deleting never adds an id to any repository list |
| Sessions.ClearRepo | backend/sessions.py:282-296 | the survivors are exactly the stored sessions not listed for the repository, unchanged; the count is the listed ids that were stored; the repository lists no sessions; the name counter stays |
| Echo.EchoTransform | agents/echo/agent.py:77-87 | without flags and with repeat ≤ 1 the text comes back; without a repeat the length is kept |
| Echo.TransformOrder | agents/echo/agent.py:79-87 | the three transforms apply one after another: reverse, then upper-case, then repeat |
| Echo.ReverseTwice | agents/echo/agent.py:80-81 | reversing twice gives the original text back |
| Echo.UpperReverseCommute | agents/echo/agent.py:80-83 | upper-casing and reversing commute |
| Echo.RepeatUnpadded | agents/echo/agent.py:84-86 | for a non-empty text without edge whitespace, n > 1 repeats give n copies separated by single blanks, n·len + n − 1 characters |
| Echo.RepeatEatsEdges | agents/echo/agent.py:84-86 | the final strip also removes the text's own edge whitespace: " u" repeated twice is "u  u" |
| Echo.TransformLog | agents/echo/tools.py:44-51 | "reversed" is logged iff reversing and "uppercased" iff upper-casing; one entry per applied transform, in order, ending with "repeated Nx" when repeating |
| Echo.EchoTool | agents/echo/tools.py:16-60 | one text item: the transform list (or "none") and then the transformed text, with missing arguments defaulting to "", false, false and 1; the tool's own step-by-step result agrees with `echo_transform` and its own transform list with the log |
| Echo.ToolDefaults | agents/echo/tools.py:26-29 | with no arguments the tool echoes the empty text and reports no transform |
| Echo.ToolNoneIff | agents/echo/tools.py:53 | "none" is reported exactly when no transform applies, and then the text is echoed unchanged |

## Left out

- Everything the agents do through the SDK: prompts, option building, message streaming, and the `on_message` and status/phase/fix-loop callbacks. A run is represented only by its content blocks or its exception text.
- The `stream_*` methods (`stream_review`, `stream_build`, `stream_process`): they re-run the same decoders while yielding events.
- `to_dict` of every result type: JSON shaping only.
- Timestamps and `duration_ms`: clocks are not modelled. `ToSummary` takes the duration as a parameter.
- Uuids: session, message and task ids are parameters. `Sessions.Create` models a colliding id as overwriting the old session, as the dict assignment does; `Sessions.CreateFresh` assumes a fresh id.
- Concurrency:
  - `asyncio.gather` over validator instances is a sequence of outcomes in submission order;
  - `process_tasks_parallel` is left out, since it only gathers `process_task` calls.
- The planner's heuristics (agents/sdlc/agents/planner.py): the planner's result is an input.
- Unbounded fix loops are driven by finite scripts. A loop whose script ends before it returns reports `Unfinished`, `ScriptEnded` or `Stalled`, so convergence within the script is what the lemmas assume.
- Unicode: upper, lower, strip, `\s` and `\d` act on ASCII only. Python's `str.upper` and `str.isspace` cover more characters.
- The parallel validator's dict-shaped findings branch (parallel_validator.py:166-179): every agent here returns `Finding` records.
- `Builder.Dedup`: `list(set(...))` has no defined order in Python; the model keeps first appearances, and the contracts speak only of members and distinctness.
- The feature orchestrator's `_build_fix_spec` (feature_orchestrator.py:606-625): only its text layout differs from the task orchestrator's, and that builder input is never inspected.
- `ChatMessage.tool_calls` dict values are modelled as strings.
- The session manager's change notifications (`on_change` and `_emit_change`, backend/sessions.py:85-92): the callback registered there is told of every create, message, agent, status, rename and delete. It is a call into code the manager cannot see, so operations only report whether they changed anything.
- The echo agent's `run_echo_agent` and `main`: they only drive the SDK and print.
- Echo.RepeatUnpadded: no upper bound on `repeat` is imposed, as in the source. Lemmas about concrete large repeat counts are not stated.
- Behaviours kept as written rather than corrected:
  - `Debugger.LaterNumbersSkipped`: only items numbered `1.` are collected;
  - `FixLoop.CrashedReviewCountsAsFixed`: a crashed re-review counts as a clean validation;
  - `Tester.SubtotalCounts`: `Subtotal:` is read as the total;
  - `FeatureFixLoop.BuildIgnored`: the feature loops ignore the builder's result;
  - `Orchestrator.QaPhase`: a QA loop that ends FAILED is reported as PARTIAL with its open count.
