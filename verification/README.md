# Verified models of the governance runtime

Dafny models of the components of the governance runtime that carry algorithms, protocols or counter arithmetic,
with proofs of what they are for. `dafny verify dfyconfig.toml` checks everything.

What is modelled, one module per component:

- **Schema migrations** (`Migration`, `MigrationSearch`): the breadth-first search over registered migration steps,
  with its visited set and queue, and the loop that applies the path found.
- **Addon manifests** (`ManifestFactory`, `ManifestParser`, `ManifestRoundTrip`, `ManifestQuotes`, `ManifestContext`): the
  printer, the line state machine that reads manifests back, the cleaning of the factory's arguments, the exact condition
  under which printing and reading are inverse, and what quotes, inline lists and error reports mean. `PyText` holds the
  string operations both rely on.
- **Requirement contracts** (`PlanCompiler`, `PlanReading`, `ContractValidator`, `ContractRules`, `CompiledContracts`, with
  `Slugs`, `Casing` and `Decimals`): the compiler from free text to contracts and how it reads a plan, the validator that
  knows nothing of it and each of its rules, and the theorem that whatever the first emits the second accepts.
- **Engine lifecycle** (`Lifecycle`): the document with active pointer, bounded rollback stack and audit trail, and
  theorems about whole runs of activations and rollbacks.
- **Phase output policies** (`PhasePolicies`): a registry with a replaceable loader and two caches, proved to answer
  every sequence of calls as uncached resolution does.
- **Rule extraction** (`Extraction`, `Counters`, `Coverage`): the extraction loop, the aggregation and reconciliation
  of its counters, and the two reconcilers of coverage with validation findings.
- **Evidence and strict exit** (`EvidencePolicy`, `StrictExit`): freshness, verified claims listed in sorted order
  (`TextOrder`), and the criterion evaluator with its deduplicating aggregation (`Distinct`).
- **Operating profiles and retention** (`OperatingProfile`, `Retention`).

Loops and objects that change state are methods and classes proved against specification functions or predicates; the
theorems are lemmas about those. What the interpreter supplies (Unicode tables beyond ASCII, the first digits of a
SHA-256, pattern tables, timestamp reading) is a parameter, so every theorem holds for any choice of it.

Four results differ from what one would first expect:

- Cleaning the factory's arguments does not make every manifest survive: a value wrapped in matching quotes loses them,
  a value with an inner line break is cut, and a signal key outside `[a-z_]+` is rejected when read
  (`ManifestRoundTrip.FactoryRoundTrip` gives the exact condition, `ManifestRoundTrip.QuotedRootIsLost` an instance).
- A compiled batch passes validation exactly when no two requirements share both the cut slug and the digest; distinct
  digests are enough but not needed (`CompiledContracts.CompiledBatch`).
- No extraction ever ends with a dropped technical artifact: such lines have no anchor, and a later rule files every
  line without an anchor elsewhere (`Extraction.RunsAreSound`).
- The documentation of the strict-exit evaluator says that all verdicts become warnings when strictness is off; the code
  keeps satisfied criteria as satisfied, and so does the model (`StrictExit.EvaluateFollowsMatrix`).

## Model

| member | source | states |
|---|---|---|
| Migration.FindMigrationPath | scripts/migrate_rulebook_schema.py:99-118 | The search terminates; a non-empty result is a chain of registered steps from source to target, no chain is shorter, and of those of its length it is the one whose first differing step the scan of the registry meets earliest; the empty result means equal versions or no chain at all. |
| Migration.Expand | scripts/migrate_rulebook_schema.py:107-116 | Scanning the registry for one popped version keeps the search invariants (levels, queue order, expansion, rank of the queued chains) or hits the target with the first chain one step longer. |
| MigrationSearch.FrontierBound | scripts/migrate_rulebook_schema.py:105-116 | Any chain whose end is not yet marked at its length is longer than the path at the head of the queue; this is why the first hit is shortest. |
| MigrationSearch.ClosedWhenDrained | scripts/migrate_rulebook_schema.py:109-118 | When the queue runs empty, every version a chain can reach has been visited. |
| MigrationSearch.StepIsFirst | scripts/migrate_rulebook_schema.py:110-116 | A step from the popped version to an unvisited one makes a chain that precedes every other chain of its length to that version. |
| MigrationSearch.FirstIsLeast | scripts/migrate_rulebook_schema.py:110 | Scanned in sorted order, that chain is the least of the chains of its length when steps are compared as pairs of version texts. |
| Migration.MigrateRulebook | scripts/migrate_rulebook_schema.py:121-140 | The four outcomes of a request; a migration applies the first shortest chain in order, logs each step once, and ends at the target version if every step stamps its own destination. |
| Migration.ShippedStepIsConservative | scripts/migrate_rulebook_schema.py:73-84 | The registered step stamps its destination, keeps every other entry and section, and is idempotent. |
| PyText.SplitUnlines | scripts/validate_addons.py:71-73 | Single-line texts written with newlines are what splitting into lines gives back. |
| PyText.SplitsAtBreaks | governance_runtime/contracts/compiler.py:39 | A text is split after its first line, whichever line break ends it; a text without a break is one line. |
| PyText.MiddleIsStripped | scripts/validate_addons.py:34 | Stripping gives the trimmed text between any two stretches of whitespace. |
| PyText.SpacesAndBreaks | scripts/validate_addons.py:71-73 | The code points that are whitespace and those that end a line, one by one. |
| PyText.SplitParts | governance_runtime/contracts/compiler.py:114 | No part of a split holds the separator, and joining the parts with it gives the text back. |
| PyText.SplitOfJoin | governance_runtime/contracts/compiler.py:114 | Splitting a join gives back exactly the parts joined, when none of them holds the separator. |
| ManifestParser.ParseManifest | scripts/validate_addons.py:51-151 | The line loop computes the fold of the state machine over the lines of any text, errors included. |
| ManifestParser.ParseIsClean | scripts/validate_addons.py:33-151 | Whatever the text, every value read is non-empty, trimmed and on one line. |
| ManifestQuotes.QuotedEntryIsRead | scripts/validate_addons.py:33-37 | A list entry between a pair of matching quotes of either kind is read as the text between them, stripped. |
| ManifestQuotes.QuotedRoundTrip | scripts/validate_addons.py:51-151 | For every manifest of clean values and well-formed signal keys, and every choice of no quotes (where the value is not itself quoted), single or double quotes around its key, class, list values and signal values: reading the rendered text gives exactly the values of the manifest, with no error. |
| ManifestQuotes.InlineListIsRead | scripts/validate_addons.py:40-48 | A bracketed list is read as the values written between its commas, quoted or not, in order. |
| ManifestQuotes.NoPartsAreRead | scripts/validate_addons.py:44-45 | Brackets around nothing but whitespace are the empty list. |
| ManifestQuotes.OnlyBracketsAreRead | scripts/validate_addons.py:41-43 | A value that does not stand in brackets is not a list. |
| ManifestQuotes.SignalIsRead | scripts/validate_addons.py:119-129 | Below the signals header, four blanks, a dash, any padding, a key and a colon give that key and the stripped rest of the line. |
| ManifestQuotes.ModeIsRead | scripts/validate_addons.py:111-117 | The two modes are recognised at two blanks, whatever whitespace follows the colon. |
| ManifestQuotes.SkippedLines | scripts/validate_addons.py:73-75 | Lines are passed over exactly when blank or when their first visible character is a hash. |
| ManifestQuotes.KeyLines | scripts/validate_addons.py:78-82 | A line without leading blank is a key line exactly when it is a key, a colon and anything, and malformed otherwise. |
| ManifestQuotes.KeyAlphabets | scripts/validate_addons.py:79-119 | The characters of signal keys and of top-level keys, one by one. |
| ManifestQuotes.EntryIsRead | scripts/validate_addons.py:136-138 | Two blanks and a dash give an entry, the stripped rest of the line. |
| ManifestContext.ParseInContext | scripts/validate_addons.py:51-151 | For any text: mode, signals, list values, the last value of each key and the errors are what the lines yield one by one, each from itself and the lines above it (the last key line, the last mode line); the reader's state is only a way to remember those. |
| ManifestContext.ErrorsNameTheirLines | scripts/validate_addons.py:68-149 | An error is reported with a line number exactly when that line has that fault where it stands; the errors are in the order of the lines and at most one for each. |
| ManifestFactory.ParseSignalEntries | scripts/rulebook_factory.py:31-47 | The loop over `key=value` arguments returns the trimmed pairs in order, or the error of the first bad argument, or the error for none at all. |
| ManifestRoundTrip.SignalArgument | scripts/rulebook_factory.py:31-47 | An argument is split at its first equals sign and both sides are stripped; it is refused exactly when either side is blank. |
| ManifestRoundTrip.NoArgument | scripts/rulebook_factory.py:31-47 | Without an equals sign an argument is skipped when blank and refused otherwise. |
| ManifestRoundTrip.MissingMeans | scripts/rulebook_factory.py:242-249 | Which option is reported missing: the first of those of which every value is blank, and a capability when both lists are. |
| ManifestQuotes.NameAlphabets | scripts/rulebook_factory.py:13-14 | Which texts are addon keys and rulebook names, by their characters. |
| ManifestRoundTrip.RenderedText | scripts/rulebook_factory.py:102-137 | The rendered text is exactly the manifest's lines, each ended by a newline, blank lines included. |
| ManifestRoundTrip.RoundTrip | scripts/validate_addons.py:51-151 | For every manifest: reading the rendered text gives back the same scalars, lists and signals in order with no error, if and only if every value is non-empty, trimmed, single-line and not wrapped in matching quotes and every signal key is over `[a-z_]`. |
| ManifestRoundTrip.FactoryTidies | scripts/rulebook_factory.py:227-261 | What an accepted addon request is turned into: trimmed non-empty values, well-shaped names, trimmed signal keys without equals sign, at least one of each required list. |
| ManifestRoundTrip.FactoryKeepsTidy | scripts/rulebook_factory.py:24-47 | A manifest written out as arguments is accepted unchanged exactly when it is tidy in that sense; so cleaning a second time changes nothing. |
| ManifestRoundTrip.FactoryRoundTrip | scripts/rulebook_factory.py:227-261 | For a manifest the factory accepted, the round trip holds exactly when no value breaks a line or is wrapped in quotes and all signal keys are well formed. |
| ManifestRoundTrip.QuotedRootIsLost | scripts/validate_addons.py:33-37 | A concrete accepted manifest that does not come back: a quoted path root loses its quotes. |
| Slugs.Slug | governance_runtime/contracts/compiler.py:25-29 | The replace-until-no-double-dash loop terminates and computes the text with every run of dashes collapsed, cut to 48 characters. |
| Slugs.HalveShrinks | governance_runtime/contracts/compiler.py:27-28 | One replacement pass never lengthens the text and shortens it whenever it has a double dash. |
| Slugs.HalveKeepsCollapse | governance_runtime/contracts/compiler.py:27-28 | One replacement pass does not change what the text collapses to. |
| Slugs.CollapseShape | governance_runtime/contracts/compiler.py:25-28 | Collapsing leaves no double dash, keeps both ends, and keeps every other character in order. |
| Slugs.SlugShape | governance_runtime/contracts/compiler.py:25-29 | For every text the slug is non-empty, at most 48 long, without double dash, does not start with a dash, and holds slug characters only. |
| Slugs.SlugSpells | governance_runtime/contracts/compiler.py:25-29 | Before the cut a slug spells the alphanumeric characters of the lower-cased text, in order, without double dash and with no dash at either end. |
| Casing.CaseMappings | governance_runtime/contracts/compiler.py:26-220 | On ASCII text lower after upper is lower, upper after lower is upper, and no letter of the other case is left. |
| PlanCompiler.SegmentPlanText | governance_runtime/contracts/compiler.py:109-119 | The nested loops yield the segments of each normalised line in order, headings and blanks left out. |
| PlanReading.LineIsWords | governance_runtime/contracts/compiler.py:37-48 | A plan line is read as its words with single blanks between, after a bullet and a number in front of them. |
| PlanReading.NormalTextIsWords | governance_runtime/contracts/compiler.py:45 | Squeezing and stripping any text gives its maximal runs of visible characters, joined by single blanks. |
| PlanReading.BulletIsDropped | governance_runtime/contracts/compiler.py:43 | A dash or star followed by whitespace is dropped with that whitespace, and nothing else is. |
| PlanReading.NumberIsDropped | governance_runtime/contracts/compiler.py:44 | Digits, a dot or parenthesis and whitespace are dropped, and nothing else is. |
| PlanReading.LinePieces | governance_runtime/contracts/compiler.py:114-118 | A line that is no heading gives, in order, the stripped pieces between its semicolons that are not blank, each with the kind inferred from it. |
| PlanReading.OneLinePlan | governance_runtime/contracts/compiler.py:109-119 | The same for a whole plan of one line. |
| PlanReading.LineByLine | governance_runtime/contracts/compiler.py:109-119 | A plan of several lines gives the segments of its first line and then those of the rest, whichever line break is between them. |
| PlanReading.HeadingMeans | governance_runtime/contracts/compiler.py:51-64 | A line is a heading when it starts with a hash or is one of the eight section names in any case. |
| PlanReading.KindMeans | governance_runtime/contracts/compiler.py:67-92 | The four kinds share out all texts: prohibitions first, then the words of what users see, then the words of what is kept, else required. |
| PlanReading.MetaMeans | governance_runtime/contracts/compiler.py:95-106 | A segment is about governance itself when one of six phrases occurs in it. |
| PlanReading.MethodsMean | governance_runtime/contracts/compiler.py:122-135 | Which verification methods a requirement calls for, by its kind and the words that occur in it. |
| PlanReading.MethodsAreSorted | governance_runtime/contracts/compiler.py:135 | The methods are listed in ascending order. |
| PlanReading.HotspotsMean | governance_runtime/contracts/compiler.py:138-158 | The session reader comes first and always; each other file is listed exactly when its words occur. |
| PlanCompiler.PlanSegmentsVisible | governance_runtime/contracts/compiler.py:37-48 | Every segment of any ticket, task and plan text is trimmed and not blank. |
| PlanCompiler.CollectSegments | governance_runtime/contracts/compiler.py:195-203 | Ticket, task and plan segments in turn without those about governance itself; the unfiltered plan when nothing is left. |
| PlanCompiler.SegmentNotes | governance_runtime/contracts/compiler.py:172-179 | The notes hold the number of segments and, sorted by the name of the kind, how often each kind that occurs does. |
| PlanCompiler.KindsAreSorted | governance_runtime/contracts/compiler.py:176-178 | The order of the kinds in the notes is that of their names, and it lists every kind. |
| PlanCompiler.KindsAddUp | governance_runtime/contracts/compiler.py:172-179 | The counts by kind add up to the number of segments. |
| PlanCompiler.CompilePlan | governance_runtime/contracts/compiler.py:182-281 | One contract per segment, in order and numbered from 1; the negative contract, verification seed and completion seed at each position name the same requirement, methods and tests, and nothing is verified yet; the notes are exactly those of the segments, or that of an empty plan. |
| ContractValidator.ValidateContract | governance_runtime/contracts/validator.py:53-111 | The error list is the missing fields alone or else the errors of each check in the order of the checks and of their fields, each once; it holds exactly the errors that are due, for any mapping, and is empty exactly when the contract is well formed. |
| ContractValidator.ErrorsAreDue | governance_runtime/contracts/validator.py:53-111 | Every error in the ordered list is due by an independent reading of the rules, and every error so due is in the list. |
| ContractValidator.NothingDueIsWellFormed | governance_runtime/contracts/validator.py:53-111 | No single check fails if and only if the contract meets the independent definition of well-formedness. |
| ContractRules.LiveFlowRule | governance_runtime/contracts/validator.py:86-91 | For a complete contract with a text list of methods: the live-flow error is raised exactly when the stripped criticality is release blocking and no listed text strips to live flow verification. |
| ContractRules.ReceiptsRule | governance_runtime/contracts/validator.py:86-97 | For the same contracts: the receipts error is raised exactly when decision text occurs in a forbidden behaviour or presentation text in the title, in any case, and no listed text strips to receipts verification. |
| ContractRules.MethodsRule | governance_runtime/contracts/validator.py:86-89 | The methods error is raised exactly when some listed text strips to none of the five methods. |
| ContractRules.MissingRule | governance_runtime/contracts/validator.py:54-61 | Missing fields are reported by name and hide everything else. |
| ContractRules.CriticalityRule | governance_runtime/contracts/validator.py:63-65 | The criticality error is raised exactly outside the three names. |
| ContractRules.TextRule | governance_runtime/contracts/validator.py:67-69 | A text field is reported exactly when it is one of the four and comes to nothing. |
| ContractRules.ListRule | governance_runtime/contracts/validator.py:71-84 | A list field is reported exactly when it is one of the seven and not a non-empty list of visible texts. |
| ContractRules.DoneFlagsRule | governance_runtime/contracts/validator.py:99-109 | The done rule is reported when it is no mapping, else each of its three flags that is absent or no boolean. |
| ContractValidator.ValidateContracts | governance_runtime/contracts/validator.py:114-152 | The errors are, contract by contract, its own errors labelled with its id and then its reuses of an owner test or live key, and at the end each id that occurs twice in the order first met; the verdict is positive exactly when all contracts are well formed and ids, owner tests and live keys are pairwise distinct. |
| ContractValidator.BatchMeaning | governance_runtime/contracts/validator.py:114-152 | What that ordered list says: empty exactly for a valid batch, a duplicate id for exactly the ids that occur more than once, and a reuse exactly where a text was first met under another id. |
| ContractValidator.SeenIsFirst | governance_runtime/contracts/validator.py:128-146 | The id reported as previous user of a text is the id under which the text occurred first. |
| CompiledContracts.ReceiptsFollow | governance_runtime/contracts/compiler.py:122-135 | Decision text in the forbidden behaviour or presentation text in the title always brings in the receipts check the validator asks for. |
| CompiledContracts.EmittedIsWellFormed | governance_runtime/contracts/compiler.py:217-246 | Whatever the segment, scope, slug and digest, the emitted contract is well formed. |
| CompiledContracts.EmittedContractSays | governance_runtime/contracts/compiler.py:161-169 | What the fields of an emitted contract hold, word for word, from the text and kind of its segment. |
| CompiledContracts.EmittedNamesSay | governance_runtime/contracts/compiler.py:217-232 | The id, owner test and live key of an emitted contract, spelled out from scope, padded index, digest and slug, with the cuts at 36 and 20 characters. |
| CompiledContracts.CompiledPlanIsWellFormed | governance_runtime/contracts/compiler.py:182-281 | Every contract compiled from any ticket, task and plan text passes the validator. |
| CompiledContracts.CompiledBatch | governance_runtime/contracts/validator.py:114-152 | A compiled batch passes if and only if no two requirements share both cut slug and digest; ids and live keys differ through the padded index. |
| CompiledContracts.CollidingDigestsFail | governance_runtime/contracts/validator.py:128-146 | A concrete batch that fails: two equal segments whose digests agree. |
| CompiledContracts.DistinctDigestsSuffice | governance_runtime/contracts/compiler.py:217-225 | Pairwise distinct digests make the batch pass. |
| CompiledContracts.CompiledPlanIsValid | governance_runtime/contracts/compiler.py:182-281 | The same condition for whole plans, from the three input texts. |
| Lifecycle.ReadWriteRead | governance_runtime/engine/lifecycle.py:18-45 | Reading back what was written after a read gives the same document; the upgrade of a legacy pointer happens once. |
| Lifecycle.LegacyPointerIsKept | governance_runtime/engine/lifecycle.py:34-38 | A legacy pointer becomes the one pointer below the active one, and a rollback goes back to it. |
| Lifecycle.PartsAreRead | governance_runtime/engine/lifecycle.py:21-45 | Without a legacy pointer, the parts of a document that are there are read as they are and each missing part is empty. |
| Lifecycle.PathsFile.StageActivation | governance_runtime/engine/lifecycle.py:54-103 | Fails closed without touching the file on an integrity failure or unreadable document; otherwise pushes the active pointer, cuts the stack to five, sets the new pointer and appends one event. |
| Lifecycle.PathsFile.RollbackActivation | governance_runtime/engine/lifecycle.py:106-150 | Restores the top of the stack and records it, or records a skipped rollback and changes nothing else. |
| Lifecycle.PathsFile.RunAll | governance_runtime/engine/lifecycle.py:54-150 | A sequence of operations on a readable file is a run of the state it held, and leaves the rest of the document alone; an unreadable file stays untouched. |
| Lifecycle.DepthStaysBounded | governance_runtime/engine/lifecycle.py:78-85 | In every run the stack stays within five once it is. |
| Lifecycle.ActivationCutsDepth | governance_runtime/engine/lifecycle.py:82-85 | An over-deep stack read from a file is cut by an activation exactly when that activation pushes. |
| Lifecycle.StackIsSuffixOfHistory | governance_runtime/engine/lifecycle.py:76-134 | In every run the stack is the end of the history: every pointer pushed and not yet popped, with nothing cut. |
| Lifecycle.CutIsInvisible | governance_runtime/engine/lifecycle.py:82-86 | As long as no rollback asks for a pointer that was cut off, a run has the active pointer and the end of the stack of the machine without a bound. |
| Lifecycle.MissedCutDiverges | governance_runtime/engine/lifecycle.py:120-130 | A rollback that does ask for one leaves the bounded document where it is while the machine without a bound goes one pointer further back. |
| Lifecycle.StagesThenRollbacks | governance_runtime/engine/lifecycle.py:76-134 | Any number of activations followed by any number of rollbacks, in closed form. |
| Lifecycle.RollbacksUndoStages | governance_runtime/engine/lifecycle.py:76-134 | k activations and k rollbacks: for k up to 5 the same active pointer and the last min(depth, 5-k) stack entries; beyond 5 the oldest surviving activation and an empty stack. |
| Lifecycle.TrailOnlyGrows | governance_runtime/engine/lifecycle.py:91-149 | The audit trail gains exactly one event per operation and keeps every earlier event. |
| Lifecycle.TrailDeterminesState | governance_runtime/engine/lifecycle.py:91-149 | In every run from the default document, replaying the trail alone gives the active version and the versions on the stack. |
| Lifecycle.LastEventsTellTheState | governance_runtime/engine/lifecycle.py:91-149 | The last event gives the stack depth, and the last event that is not a skip gives the active version. |
| PhasePolicies.LastMatchIsLast | governance_runtime/domain/phase_state_machine.py:273-286 | Lookup finds the block of the last entry for a token, and none only if no entry defines it. |
| PhasePolicies.ParentToken | governance_runtime/domain/phase_state_machine.py:290-293 | A token has a parent exactly when it starts with digits and a dot, and the parent is those digits. |
| PhasePolicies.AnswerMeans | governance_runtime/domain/phase_state_machine.py:246-299 | An answer with a policy comes from the last entry of the list for the token that has a block, else for its numeric parent: allowed and forbidden classes are the stripped items of that block, an absent list being empty, and the flags and the count are those of its discipline, or false, false and 0. No policy means that neither token is defined, and an error that the block is unusable. |
| PhasePolicies.Registry.SetLoader | governance_runtime/domain/phase_state_machine.py:214-220 | Registering a loader drops both caches. |
| PhasePolicies.Registry.ClearCaches | governance_runtime/domain/phase_state_machine.py:302-305 | Clearing drops both caches and keeps the loader. |
| PhasePolicies.Registry.LoadRaw | governance_runtime/domain/phase_state_machine.py:223-243 | The list held is the first one loaded, auto-configured if need be; an error leaves nothing held. |
| PhasePolicies.Registry.PolicyTable | governance_runtime/domain/phase_state_machine.py:273-281 | The dictionary built front to back maps each token to its last block. |
| PhasePolicies.Registry.ResolvePolicy | governance_runtime/domain/phase_state_machine.py:263-299 | The answer is that of the last defining entry of the list held, for the token or else its parent, read off its block field by field; it is cached, earlier entries stay, and every cached entry, absences included, keeps agreeing with uncached resolution. |
| PhasePolicies.Registry.Run | governance_runtime/domain/phase_state_machine.py:214-305 | Any sequence of registrations, resolves and clears gives the replies of the machine without policy cache. |
| PhasePolicies.EveryAnswerIsUncached | governance_runtime/domain/phase_state_machine.py:223-305 | In a run, each answer is uncached resolution on the list of the first successful load since the last invalidation, or the loader's own error. |
| PhasePolicies.AnswersAgreeWhileHeld | governance_runtime/domain/phase_state_machine.py:225-226 | While a list is held, the world outside no longer matters. |
| PhasePolicies.RegistrationTakesEffect | governance_runtime/domain/phase_state_machine.py:214-220 | After a registration the next resolve asks the new loader, whatever was cached. |
| Extraction.ExtractCandidates | governance_runtime/engine/business_rules_code_extraction.py:634-733 | The nested loops return the findings of all readable surfaces in order, and as candidates exactly the accepted ones. |
| Extraction.LookIsSound | governance_runtime/engine/business_rules_code_extraction.py:612-709 | Status, evidence, anchor and meaning of an outcome agree: accepted exactly with executable evidence and a meaning, a surface status exactly with a non-business kind of evidence, a missing anchor exactly on business surfaces without one; none ends as technical artifact. |
| Extraction.ReportedLines | governance_runtime/engine/business_rules_code_extraction.py:612-709 | A line gives a finding exactly when it is visible and has an anchor near, a technical look or a normative one. |
| Extraction.StatusMeans | governance_runtime/engine/business_rules_code_extraction.py:612-709 | Each of the six possible statuses holds exactly under its condition on surface, anchor, business context, executable evidence and meaning. |
| Extraction.SemanticMeans | governance_runtime/engine/business_rules_code_extraction.py:617-620 | The meaning of an anchored line is that of the line with its anchor, else that of its surroundings. |
| Extraction.SnippetMeans | governance_runtime/engine/business_rules_code_extraction.py:658-726 | A snippet is the anchor text or the line itself, cut to 220 characters. |
| Extraction.RunsAreSound | governance_runtime/engine/business_rules_code_extraction.py:634-733 | The same for every outcome of every run. |
| Extraction.CandidatesAreAcceptedOutcomes | governance_runtime/engine/business_rules_code_extraction.py:698-731 | Candidate k mirrors the k-th accepted outcome and carries the number k + 1. |
| Extraction.AcceptedAtIsExact | governance_runtime/engine/business_rules_code_extraction.py:709-731 | The positions so matched are exactly those of the accepted outcomes, in increasing order. |
| Extraction.Conservation | governance_runtime/engine/business_rules_code_extraction.py:181-211 | Outcomes are candidates plus dropped; candidates are the accepted ones; the business-enforcement count equals the candidates. |
| Extraction.DroppedByCategory | governance_runtime/engine/business_rules_code_extraction.py:189-207 | The dropped count is the sum over the six drop statuses. |
| Counters.AggregateCounts | governance_runtime/engine/business_rules_hydration.py:96-152 | The counting loop yields the number of mappings, of those not accepted, and of each status. |
| Counters.DropsByCategory | governance_runtime/engine/business_rules_hydration.py:121-152 | Dropped equals the six drop categories plus the mappings of unknown status. |
| Counters.CountsAreSizes | governance_runtime/engine/business_rules_hydration.py:96-152 | The count of a status is the number of positions of outcomes with that status after trimming and case folding. |
| Counters.SplitDivides | governance_runtime/engine/business_rules_hydration.py:208-346 | How the supplied candidate, valid and invalid numbers divide into validated and invalid, case by case over which of them are given. |
| Counters.AggregateAgreesWithExtraction | governance_runtime/engine/business_rules_hydration.py:96-152 | Aggregating an extraction's own outcomes gives the extraction's own counts, with no unknown status. |
| Counters.BuildCounters | governance_runtime/engine/business_rules_hydration.py:208-346 | The branching reconciliation of supplied and aggregated counts gives the counters described case by case from the numbers and outcomes of the report, constructor checks included. |
| Counters.BuiltMeans | governance_runtime/engine/business_rules_hydration.py:208-346 | From the numbers and outcomes of the report alone: with a mapping among the outcomes the candidates are the accepted ones, the validated count is their number when no validated field is given and else the lesser of it and what the report says, and invalid is the rest; without outcomes all counts are those stated, with raw the sum of dropped and candidates. |
| Counters.BuildSucceedsExactly | governance_runtime/engine/business_rules_hydration.py:174-188 | The constructor checks hold for every report whose outcomes are absent, empty or contain a mapping; in the remaining case exactly when the supplied raw, dropped and candidate counts add up. |
| Counters.UnreadableOutcomesFail | governance_runtime/engine/business_rules_hydration.py:174-181 | A concrete report that fails: outcomes without a mapping, one raw candidate and nothing to account for it. |
| Counters.BuiltCountersAreConsistent | governance_runtime/engine/business_rules_hydration.py:160-188 | Built counters satisfy 0 <= validated <= candidates <= raw, raw = dropped + candidates, candidates = validated + invalid, and diagnostics within dropped. |
| Counters.RebuildIsFixpoint | governance_runtime/engine/business_rules_hydration.py:190-346 | Building again from a report that carries built counters gives the same counters, with the outcomes kept, removed, or replaced by anything without mappings. |
| Counters.ExtractionHydrates | governance_runtime/engine/business_rules_hydration.py:208-346 | Counters built from an extraction's non-empty outcomes equal the extraction's counts, whatever else the report says. |
| Coverage.ReconcileCoverage | governance_runtime/engine/business_rules_coverage.py:314-346 | The record reconciler's loops come to one order-preserving union per list, an insufficient flag and the grade poor, and to nothing when no code is severe. |
| Coverage.ReconcilePayload | governance_runtime/engine/business_rules_coverage.py:349-388 | The same for payloads, on trimmed lists. |
| Coverage.RepresentationsCommute | governance_runtime/engine/business_rules_coverage.py:314-429 | Reconciling then converting equals converting then reconciling if and only if no code is severe or all listed codes are trimmed and non-empty. |
| Coverage.UntrimmedCodeDiverges | governance_runtime/engine/business_rules_coverage.py:364-373 | A concrete coverage on which the two orders differ: an untrimmed reason code. |
| Coverage.ReconcilingTwice | governance_runtime/engine/business_rules_coverage.py:314-346 | Reconciling with a and then b is reconciling with a + b. |
| Coverage.ReconcilingPayloadTwice | governance_runtime/engine/business_rules_coverage.py:349-388 | The same for payloads. |
| Coverage.ReconcilersAreIdempotent | governance_runtime/engine/business_rules_coverage.py:314-388 | Both reconcilers are idempotent. |
| Coverage.InsufficiencyStays | governance_runtime/engine/business_rules_coverage.py:314-346 | Sufficient afterwards exactly when sufficient before and nothing severe; no listed code is lost and every severe code leaves its quality reason. |
| Coverage.OnlyReasonsAreAdded | governance_runtime/engine/business_rules_coverage.py:314-346 | Nothing but the insufficiency codes and the reasons of severe codes is added to the lists, nothing is lost or repeated, and the metrics stay. |
| Coverage.PayloadInsufficiencyStays | governance_runtime/engine/business_rules_coverage.py:349-388 | The same verdict for payloads. |
| Distinct.DedupAppend | governance_runtime/domain/strict_exit_evaluator.py:322-331 | Deduplicating a concatenation keeps the first list's distinct elements and then the second's that the first lacks. |
| Distinct.DedupKeepsOrder | governance_runtime/domain/strict_exit_evaluator.py:322-331 | Survivors stand in order of first occurrence. |
| EvidencePolicy.StaleFromAMomentOn | governance_runtime/domain/evidence_policy.py:79-92 | Evidence is stale exactly after its observation time plus its time to live, a zero time to live counting as one second; without a readable time it is stale throughout. |
| EvidencePolicy.TtlMeans | governance_runtime/domain/evidence_policy.py:79-84 | The time to live is the one given unless negative, else nothing for the two live classes and a day for all others. |
| EvidencePolicy.PassingMeans | governance_runtime/domain/evidence_policy.py:128-131 | An item passes when it is verified or its result is one of four words in any case. |
| EvidencePolicy.ClaimMeans | governance_runtime/domain/evidence_policy.py:133-147 | A passing item stands for its evidence id, else its claim id, else its canonical label, blank ones not counting; other items for nothing. |
| EvidencePolicy.EvidenceMeans | governance_runtime/domain/evidence_policy.py:100-112 | A session-state mapping hides the build evidence of the document itself, even when it has none. |
| EvidencePolicy.ExtractVerified | governance_runtime/domain/evidence_policy.py:95-157 | Two sorted lists without duplicates: an id is observed exactly when some passing item with that id is fresh, and stale exactly when it is not observed but listed as stale or claimed by a stale passing item. |
| TextOrder.SortTexts | governance_runtime/domain/evidence_policy.py:157 | Sorting lists exactly the given texts in ascending order by code points. |
| TextOrder.AscendingIsUnique | governance_runtime/domain/evidence_policy.py:157 | An ascending list is determined by its members. |
| EvidencePolicy.ExtractionIsDetermined | governance_runtime/domain/evidence_policy.py:108-157 | That meaning fixes the two lists, order included, and they share no id. |
| EvidencePolicy.OrderDoesNotMatter | governance_runtime/domain/evidence_policy.py:111-157 | Two documents whose build evidence agrees up to order and repetition of items and of listed claims give the same result, wherever in the document the evidence is found. |
| EvidencePolicy.TimeOnlyMovesIds | governance_runtime/domain/evidence_policy.py:87-157 | As time passes observed ids only shrink and those observed or stale stay the same. |
| StrictExit.EvaluateFollowsMatrix | governance_runtime/domain/strict_exit_evaluator.py:131-278 | Each verdict is the entry of the decision matrix for the defect, criticality and strictness, and the reason code says blocked exactly when the verdict does. |
| StrictExit.CodeMeans | governance_runtime/domain/strict_exit_evaluator.py:131-278 | Without strictness no code; else missing evidence before stale evidence before a missed threshold, as blocked or not verified by the criticality. |
| StrictExit.SubjectMeans | governance_runtime/domain/strict_exit_evaluator.py:141-143 | A result names the stripped kind, the stripped key or else the kind, and whether the criterion is critical. |
| StrictExit.ThresholdMeans | governance_runtime/domain/strict_exit_evaluator.py:77-278 | A threshold is missed exactly without a known resolver, without a number, or below 80, 60 or 40 by the risk tier. |
| StrictExit.VerdictsOnlyWorsen | governance_runtime/domain/strict_exit_evaluator.py:77-278 | A verdict never improves when time passes, the tier rises or strictness is switched on, together or apart. |
| StrictExit.EvaluateStrictExit | governance_runtime/domain/strict_exit_evaluator.py:285-358 | The loops return one result per criterion, the deduplicated codes, the blocked flag and the summary with its count. |
| StrictExit.EvaluationIsHomomorphic | governance_runtime/domain/strict_exit_evaluator.py:309-358 | The result for concatenated criteria is put together from the results of the parts: blocked by disjunction, codes of the second only where the first lacks them, the worse summary with counts added. |
| StrictExit.CodesAreExact | governance_runtime/domain/strict_exit_evaluator.py:322-331 | The codes listed are exactly those of the results, without duplicates and in order of first occurrence. |
| StrictExit.SummaryIsWorst | governance_runtime/domain/strict_exit_evaluator.py:333-351 | The summary class is the maximum severity over the results. |
| StrictExit.HowManyIsSize | governance_runtime/domain/strict_exit_evaluator.py:333-345 | The number in a summary is the number of criteria with that verdict. |
| StrictExit.BlockedIsListed | governance_runtime/domain/strict_exit_evaluator.py:321-358 | Blocked exactly when a blocked code is listed; without strictness never blocked and no codes. |
| StrictExit.AggregateOnlyWorsens | governance_runtime/domain/strict_exit_evaluator.py:285-358 | The aggregate never improves in a harder setting or with more criteria. |
| OperatingProfile.MaxProfile | governance_runtime/domain/operating_profile.py:149-157 | The scanning loop returns a least upper bound that is among the inputs, and fails exactly when none is present. |
| OperatingProfile.JoinIsPermutationInvariant | governance_runtime/domain/operating_profile.py:149-157 | Order, repetition and gaps do not change the maximum. |
| OperatingProfile.JoinIsLeast | governance_runtime/domain/operating_profile.py:149-157 | Every profile above all inputs is above the maximum. |
| OperatingProfile.ResolveProfile | governance_runtime/domain/operating_profile.py:237-343 | The resolution with its closing checks yields the effective profile, or the first broken rule in the order applied. |
| OperatingProfile.BoundsHoldEvenUnderBreakGlass | governance_runtime/domain/operating_profile.py:311-325 | A result is never below the floor nor below trusted enforcement. |
| OperatingProfile.ResultIsLeastUpperBound | governance_runtime/domain/operating_profile.py:296-316 | Without an active break-glass the result is the least upper bound of defaults, trusted enforcement and request. |
| OperatingProfile.BreakGlassOnlyGrantsTheRequest | governance_runtime/domain/operating_profile.py:309-313 | A break-glass record can lower the result only to the request itself. |
| OperatingProfile.SucceedsExactly | governance_runtime/domain/operating_profile.py:255-330 | Resolution returns if and only if the stated conditions on the inputs hold, in any order of checking. |
| OperatingProfile.GlassMeans | governance_runtime/domain/operating_profile.py:214-234 | A break-glass record is active exactly when reason, actor, scope and rationale are visible and the expiry is strictly after now; which of the three is missing decides between inactive, invalid and expired. |
| OperatingProfile.TrustMeans | governance_runtime/domain/operating_profile.py:170-211 | Which signals each enforcement source needs to be trusted; all other sources never are. |
| OperatingProfile.ConflictNeedsBreakGlass | governance_runtime/domain/operating_profile.py:311-325 | The conflict with trusted enforcement arises only from a lower request let through by break-glass. |
| OperatingProfile.DownshiftIsForbidden | governance_runtime/domain/operating_profile.py:311-322 | Without break-glass a lower request is refused as such, and the floor is violated exactly when nothing reaches it. |
| OperatingProfile.ReportedModes | governance_runtime/domain/operating_profile.py:327-343 | What a resolution reports besides its result: the modes read, each default standing in for the other, enforcement only when trusted. |
| OperatingProfile.HigherRequestNeverLowers | governance_runtime/domain/operating_profile.py:309-316 | With all else equal, requesting more never yields less. |
| Retention.EvaluateDeletion | governance_runtime/domain/retention.py:214-276 | The decision names the first applicable active hold, else the regulated minimum, else the retention period, each with the exact days remaining, else permission. |
| Retention.DecisionIsDetermined | governance_runtime/domain/retention.py:199-292 | The decision is unique, and deletion is allowed exactly when no active hold applies and the age reaches the maximum of the regulated minimum and the effective retention. |
| Retention.PermissionLasts | governance_runtime/domain/retention.py:214-276 | Permission is monotone in age. |
| Retention.FewerHoldsNeverBlock | governance_runtime/domain/retention.py:236-244 | Permission is antitone in the holds. |
| Retention.TwoWaitsSuffice | governance_runtime/domain/retention.py:246-276 | Without a blocking hold at most two waits of the reported days end in permission, at exactly the required age. |

## Left out

- Files, subprocesses, the clock and command-line parsing: what they yield is passed in; the rest of the paths document is not modelled.
- Atomic writing of the paths document: a write is taken to succeed.
- Unicode beyond ASCII: case mapping, digits and alphanumerics come from a table parameter; the context-dependent lower-case sigma is not modelled.
- SHA-256 is an uninterpreted function to eight hexadecimal digits.
- The sorting of the migration registry: its scan order is passed in, and results are stated for any order and for a sorted one.
- Message wording: errors, log lines and summaries are kept as data.
- The deduplication loop at the end of the hotspot inference: the tokens it receives are distinct constants.
- The validation of a parsed manifest against the rulebook files, and the factory's other two renderers.
- Stack entries of the paths document that are not mappings, and pointer entries that are not text.
- Loaders that change a list after having returned it, and phase lists that are not lists.
- Parsing of numbers in reports: report fields and evidence values are given as numbers already.
- A time to live beyond the range of the date library, which raises there.
- The canonical form of a claim label, and reading of timestamps: parameters.
- The patterns of the extraction classifiers, the rendering of sentences and surface discovery: functions on lines and texts.
- Coverage scoring and grading, and the rendering of session snapshots: many unrelated constants.
- Validation of retention policies and holds, archive manifests, phase ranks and tokens: finite tables.
