# Roaminal: verified models of the backend's state machines

These Dafny modules model the parts of Roaminal's Go backend that carry state and that everything else relies on, and prove
what they promise. Each module follows one part of the program; methods keep the loops, the branches and the error order of
the source and are proved against functions, and the properties are lemmas about those functions.

- **ssh configuration** (`Ssh*.dfy`): the parser, the structural editor and the repository. An edit replaces byte ranges; what
  it means is given by parsing the result again. `SshTheorem.EditReadsBack` says exactly when an edit reads back as asked,
  `SshEffect.BlocksAfterEdit` that no other block changes, `SshOutcome.EditChangesOneDefinition` both on definitions.
- **definition journal** (`DefinitionJournal.dfy`, `DefinitionEffects.dfy`, `DefinitionService.dfy`): two files changed under an undo
  journal, with a crash or a failed write possible at every step. `Atomic`, `RunsAreSerial`, `UpdateAfter`.
- **transport pool** (`TransportPool.dfy`, `TransportRuns.dfy`): reference counts of shared connections. `ReachablePool`, `EveryRunStops`, `LeakIff`.
- **authentication** (`Auth.dfy`): sessions, pending logins and the TOTP enrollment behind one lock. The invariant of
  `Manager` holds after every method, whatever the environment does to the enrollment file.
- **sidebar layout** (`Layout*.dfy`): normalisation as a partition, its validity and its fixpoints.
- **messages** (`Message*.dfy`): retention, numbering and paging. **agent projection** (`Agent*.dfy`):
  snapshots accepted after their message is stored.
- **remote monitor** (`RemoteMonitor*.dfy`): one probe for each owner and callers that wait for it. `WaiterIsServed`, `AnswersAreOwn`.
- **shell words** (`ShellWords.dfy`, `Tmux*.dfy`) and **rate limit** (`RateLimit*.dfy`).

`dafny verify dfyconfig.toml` checks everything.

## What the proofs found

- Replacing the first word of a directive cuts as many bytes as the word has without its quotes: a quoted word leaves its last
  letter behind (`SshKept.QuotedLeavesTheLastLetter`).
- A block without a final newline swallows the first line added to it (`SshTheorem.LostKey`, `SshTheorem.LostIdentity`), which can
  change the value of its last line too (`SshGlue.EditKeepsOtherKeys`).
- Identities in the managed form but unknown to the inventory are replaced like managed ones, so the count of unmanaged
  identities can drop (`SshUnmanaged.UnmanagedDrops`); `SshUnmanaged.EditKeepsUnmanagedIff` says exactly when it does not.
- Duplicate drops advanced directives and unmanaged identities, and copies correctly exactly when the values are clean.
- A commit record whose write fails after it took effect can tear the pair of files (`DefinitionJournal.TornCommit`), and an
  operation started over a prepared journal brings undone changes back (`DefinitionJournal.StaleSnapshot`, `DefinitionJournal.StaleRun`).
- A derived instance that cannot be created after its owner exited leaks the transport (`TransportRuns.LeakIff`).
- A reuse that finds its transport before a shutdown and joins after it can stop the transport a second time, since an exit does not
  look at the register as a release does (`TransportRuns.StoppedTwice`, `TransportRuns.StopsAgainIff`).
- A group with the id `ungrouped` that the order does not name is lost by the second normalisation (`LayoutTheorems.FixpointIff`);
  validation excludes it.
- Two tmux sessions of one socket created in the same second let the accepted index drop (`AgentRuns.ReturnLowersIndex`).
- The snapshot check lets any provider through, the message store only one: for others no change of state within a runtime is ever
  accepted while messages are kept (`AgentRuns.OtherProvidersStall`).
- The rate bound holds for up to 1024 sessions and for no more (`RateLimitRuns.BoundedIff`, `RateLimitRuns.RoomBreaksTheBound`), and
  only while the clock does not go back (`RateLimitRuns.ClockBackBreaksTheBound`).

## Model

| member | source | states |
|---|---|---|
| SshText.Tokenize | backend/internal/sshconfig/parser.go:95-138 | The loop over quote and escape state returns the words of the value for every input; `SshText.Words` is that reading as a function. |
| SshText.ReadsBackIffClean | backend/internal/sshconfig/parser.go:95-138 | A written value is read back as its own first word if and only if it is a clean word: not empty, no blank, quote, backslash, and no `#` at its start. |
| SshText.LinesAppend | backend/internal/sshconfig/parser.go:12-37 | Splitting into lines is compositional at every line start, so a change of some lines does not disturb the others. |
| SshText.LinesFlatten | backend/internal/sshconfig/parser.go:12-37 | Cutting a concatenation of well-formed lines gives back exactly those lines. |
| SshText.CanonicalReadsBack | backend/internal/sshconfig/edit.go:171-191 | The canonical spelling that the editor writes for a keyword is read back as that keyword. |
| SshParser.ScanDirective | backend/internal/sshconfig/parser.go:70-93 | Finds a directive exactly where the line reading has one, with the byte offsets of its keyword and value. |
| SshParser.Parse | backend/internal/sshconfig/parser.go:12-68 | For every text the loop over lines builds the document that the grouping of lines describes: blocks, directives, offsets, warnings, newline style. What its aliases, warnings and line ends are on the characters: `SshHosts.AliasIff`, `SshHosts.WarningsAre`, `SshHosts.NewlineIs`. |
| SshHosts.AliasIff | backend/internal/sshconfig/parser.go:39-68 | A block of the parsed document has an alias if and only if its keyword is Host without regard to case and its value reads as exactly one word without `*`, `!` and `?`; the alias is then that word. |
| SshHosts.DefinitionsAreHosts | backend/internal/sshconfig/parser.go:161-171 | The definitions of a file are those of exactly these blocks, one each, in the order of the file. |
| SshHosts.WarningsAre | backend/internal/sshconfig/parser.go:39-68 | The warnings of a document are about exactly the lines whose directive is neither a header nor one of the eight supported, one each, in order, with the class of an ignored include or of an advanced directive. |
| SshHosts.NewlineIs | backend/internal/sshconfig/parser.go:12-37 | A document has the line ends of Windows if and only if one occurs in it. |
| SshPlaces.DirectivesStand | backend/internal/sshconfig/parser.go:12-93 | The header and every directive of a block are those of their line, and line, start and end of line and value are where they say; each line of a block that holds a directive has one, in order, and a block runs to the next header. |
| SshScan.ScanIff | backend/internal/sshconfig/parser.go:70-93 | A line holds a directive if and only if it is blanks, a keyword, separators and a value in that order, and it can be taken apart in one way only. |
| SshHosts.SpaceIs | backend/internal/sshconfig/parser.go:70-93 | Blank are the six white-space characters of ASCII. |
| SshParse.ParseTiles | backend/internal/sshconfig/parser.go:12-68 | The preamble and the blocks cover the file from the first to the last byte without gap or overlap, each block starts a line and its bytes are the lines it was grouped from. |
| SshParse.GroupingIsUnique | backend/internal/sshconfig/parser.go:12-68 | Regrouping the lines of any well-grouped preamble and blocks gives back that grouping: the block structure is determined by the text. |
| SshParse.BlockText | backend/internal/sshconfig/parser.go:12-68 | The file is the text before block k, the lines of block k and the text after it, and block k starts at a line start. |
| SshParse.BlockPlaced | backend/internal/sshconfig/parser.go:12-68 | Block k of the document is group k placed at the offset of the text before it. |
| SshDefinition.DefinitionFromBlock | backend/internal/sshconfig/parser.go:173-234 | The loop over the directives of a block yields the definition given by the readings of its lines: last recognised value per field, managed identities in order, the rest counted. |
| SshHosts.FieldsAre | backend/internal/sshconfig/parser.go:173-234 | Each field is the last of the values of its key that can be represented: a port from 1 to 65535, an interval of 32 bits, yes or no, no, and the null device. |
| SshHosts.ManagedAre | backend/internal/sshconfig/parser.go:236-245 | A key file counts as managed exactly when it lies under the key directory or has no directory, and has one of the four names or endings. |
| SshHosts.ListedIff | backend/internal/sshconfig/parser.go:186-196 | A definition lists exactly the managed key files that the inventory knows. |
| SshHosts.AdvancedIs | backend/internal/sshconfig/parser.go:173-234 | Every directive with a value that is not represented is counted as advanced. |
| SshHosts.AssessmentIs | backend/internal/sshconfig/parser.go:197-234 | Host key checking counts as weakened exactly when something turns it off and nothing that is given does not. |
| SshDefinition.PlacedReadings | backend/internal/sshconfig/parser.go:70-93 | The directives of a placed block read as its lines do, wherever the block stands in the file. |
| SshSplice.SortByStart | backend/internal/sshconfig/edit.go:193-199 | The in-place insertion sort orders the replacements by descending start; the effect of the list on the text stays, insertions at one point keep their order. |
| SshSplice.ApplyReplacements | backend/internal/sshconfig/edit.go:193-204 | For every set of disjoint ranges, sorting in place and splicing back to front equals one simultaneous substitution of the list as it was given. |
| SshSplice.SpliceStep | backend/internal/sshconfig/edit.go:200-203 | Splicing one more replacement in front of all others is the substitution with that replacement added. |
| SshSplice.OrderDoesNotMatter | backend/internal/sshconfig/edit.go:193-204 | Two listings of the same replacements give the same text when insertions at each single point come in the same order. |
| SshEditor.CheckAlias | backend/internal/sshconfig/edit.go:214-235 | Accepts an alias if and only if it is valid; on the characters: `SshHosts.AliasIsName`. |
| SshHosts.AliasIsName | backend/internal/sshconfig/edit.go:214-235 | A valid alias is a letter and then at most 254 letters, digits, dots, underscores and hyphens. |
| SshEditor.FindBlock | backend/internal/sshconfig/edit.go:206-213 | Returns the first host block whose alias is the given one, and none if there is none. |
| SshPatch.TargetIsFirst | backend/internal/sshconfig/edit.go:206-213 | No block before the target has the alias, and without a target no block at all has it. |
| SshEditor.Editable | backend/internal/sshconfig/edit.go:55-66 | Refuses exactly the blocks in which a supported key other than IdentityFile is given twice. |
| SshEditor.Wanted | backend/internal/sshconfig/edit.go:31-54 | The fields the edit sets, as the directive values to write. |
| SshEditor.BodyReplacements | backend/internal/sshconfig/edit.go:67-105 | The loop over the directives collects the replacements of the lines, the keys met, and whether managed identities were replaced. |
| SshEditor.AddMissing | backend/internal/sshconfig/edit.go:109-113 | Every wanted key that no directive has is inserted once at the end of the block, in the order in which the map hands them out. |
| SshEditor.ReplacementsPatch | backend/internal/sshconfig/edit.go:67-119 | The collected replacements are disjoint, lie inside the target block, and applied to the file rewrite just that block. |
| SshEditor.PatchBlock | backend/internal/sshconfig/edit.go:16-120 | Fails with exactly the error of `SshAnswers.OutcomeIs`; otherwise returns the file with only the target block rewritten line by line. |
| SshAnswers.OutcomeIs | backend/internal/sshconfig/edit.go:16-66 | On the parsed document: refused when no block has the alias, when the new alias is not a name or another block has it, or when the block gives a directive other than IdentityFile twice, in this order; otherwise the first block of the alias is edited. |
| SshScan.EditedLineScans | backend/internal/sshconfig/edit.go:91-105 | An edited directive line keeps its keyword and its value is the new one followed by what the replacement left of the old word. |
| SshScan.RenderedScans | backend/internal/sshconfig/edit.go:161-163 | A rendered directive line reads back as its key and value. |
| SshLines.JoinedKeepsKey | backend/internal/sshconfig/edit.go:106-113 | Lines added to a block without final newline glue to its last line and leave that line its key. |
| SshLines.JoinedToBlank | backend/internal/sshconfig/edit.go:106-113 | Glued to a blank last line the added directive reads as on a line of its own. |
| SshEffect.BlocksAfterEdit | backend/internal/sshconfig/edit.go:16-120 | After every successful edit with clean values the reparsed file has the same preamble and the same blocks but for the target: every other block is kept byte for byte. |
| SshReadBack.MentionedValues | backend/internal/sshconfig/edit.go:91-105 | The one directive of a wanted key reads back exactly the wanted value if and only if it had a word and the text that the replacement leaves, after as many bytes as that word has, is silent: at its end or a blank, possibly after empty quotes, or a lone open quote or backslash. |
| SshScan.NothingLeftIff | backend/internal/sshconfig/parser.go:95-138 | A text adds nothing to the word before it if and only if it is silent in that sense, a condition on its characters. |
| SshReadBack.EditedIdentityValues | backend/internal/sshconfig/edit.go:79-90 | Managed identities are replaced as a whole at the first of them; unmanaged IdentityFile values keep their value and order. |
| SshEdited.EditedBlockReads | backend/internal/sshconfig/edit.go:16-120 | The readings of an edited block: patched head, edited lines, then the added directives, if there is room for them. |
| SshEdited.EditedValues | backend/internal/sshconfig/edit.go:16-120 | For each key the values of the edited block, for keys the edit names and for those it does not. |
| SshTheorem.EditedReadsAsAsked | backend/internal/sshconfig/edit.go:16-120 | An edited block reads as the edit asked if and only if the block can be edited: what is left behind each replaced first word is silent, and added lines have room. |
| SshTheorem.EditReadsBack | backend/internal/sshconfig/edit.go:16-120 | After a successful edit the reparsed file has, in the target block, the alias, the values and the identities asked for if and only if a condition on the block before the edit holds. |
| SshGlue.EditKeepsOtherKeys | backend/internal/sshconfig/edit.go:16-120 | A key the edit does not name keeps all its values in the reparsed file if and only if it is not spoilt: lines are added without room, and the last line has that key with a first word not settled (missing, or in an open quote or escape). |
| SshGlue.GluedReading | backend/internal/sshconfig/edit.go:106-113 | A directive to which an added line is glued keeps its key, and its value if and only if its first word is settled. |
| SshTheorem.LostKey | backend/internal/sshconfig/edit.go:109-113 | Without a final newline and a last line that is not blank, the first added key is not read back at all. |
| SshTheorem.LostIdentity | backend/internal/sshconfig/edit.go:106-108 | In the same situation identities added at the end do not all read back. |
| SshTheorem.GluedIdentity | backend/internal/sshconfig/edit.go:164-170 | An identity line glued to an IdentityFile line without words is not read as it was written. |
| SshOutcome.EditChangesOneDefinition | backend/internal/sshconfig/edit.go:16-120 | On the list of definitions: one edit replaces the one definition it names by the definition asked for and keeps all others, in order. |
| SshUnmanaged.EditKeepsUnmanagedIff | backend/internal/sshconfig/parser.go:186-196 | An edit of the identity files never raises the count of unmanaged identities, and keeps it if and only if every IdentityFile value of the managed form names a known key. |
| SshUnmanaged.UnmanagedDrops | backend/internal/sshconfig/edit.go:79-90 | A file of one host whose count goes from one to zero. |
| SshKept.EditKeepsLines | backend/internal/sshconfig/edit.go:67-113 | Lines that the edit does not concern, unmanaged IdentityFile lines among them, are kept byte for byte and in order, if and only if the last line is not one of them or the added lines have room. Lines that the edit itself writes do not count. |
| SshKept.QuotedLeavesTheLastLetter | backend/internal/sshconfig/edit.go:100-117 | For every quoted first word the replacement cuts as many bytes as the word has without its quotes, so the last letter stays and glues to the new value: the unquoted length is a real precondition. |
| SshKept.UnquotedIsPlain | backend/internal/sshconfig/edit.go:100-117 | A word written without quotes or escapes and followed by a blank or nothing is replaced cleanly. |
| SshAppend.AppendBlock | backend/internal/sshconfig/edit.go:122-159 | Appends a rendered block, after a newline if the file does not end in one. |
| SshAnswers.ClosedText | backend/internal/sshconfig/edit.go:122-130 | A block is added after a line break of the kind of the file, unless the file is empty or ends in one. |
| SshGrow.ClosedKeepsMeaning | backend/internal/sshconfig/edit.go:128-130 | Closing the last line changes no definition. |
| SshGrow.AddedBlockMeaning | backend/internal/sshconfig/edit.go:122-159 | A block added at a line start adds its own definition at the end and changes nothing else. |
| SshGrow.CutBlock | backend/internal/sshconfig/repository.go:219-227 | Cutting the bytes of block k removes exactly that block from the reparsed file. |
| SshCreate.RenderedReadsBackIff | backend/internal/sshconfig/edit.go:161-163 | A rendered value on one line reads back if and only if it is a clean value. |
| SshCreate.CreateAddsDefinition | backend/internal/sshconfig/repository.go:206-218 | Create adds exactly one definition, at the end, that reads back the fields written, and keeps all others. |
| SshCreate.DeleteRemovesFirst | backend/internal/sshconfig/repository.go:219-227 | Delete removes exactly the first definition of the alias. |
| SshCreate.DuplicateCopies | backend/internal/sshconfig/repository.go:228-244 | Duplicate keeps every definition and adds the copy under the new alias if and only if the copied values are clean; unmanaged identities and advanced directives are not copied. |
| SshRepository.Repository.Open | backend/internal/sshconfig/repository.go:145-167 | The precondition and permission checks, in order, with their errors. |
| SshRepository.StaleTagIff | backend/internal/sshconfig/repository.go:176-203 | A precondition is refused if and only if the text it was issued for, or what the file allows, has changed since: no update is lost. |
| SshRepository.Repository.Replace | backend/internal/sshconfig/repository.go:172-174 | The write puts the new text in place, or fails before or after it did. |
| SshRepository.Repository.Definitions | backend/internal/sshconfig/parser.go:161-171 | The loop over the blocks lists the definitions the text means. |
| SshRepository.Repository.Update | backend/internal/sshconfig/repository.go:203-205 | Succeeds if and only if the precondition matches, the file can be written, the edit is accepted and the write is done; otherwise the error of the first check that fails. The file is the patched one exactly when the write took effect, and a success lists its definitions. |
| SshRepository.UpdateChangesOneDefinition | backend/internal/sshconfig/repository.go:203-205 | The text an update may write has the definitions of the text before, but for the one of the alias, which is as asked when the block can be edited. |
| SshRepository.UpdateKeepsOtherBlocks | backend/internal/sshconfig/repository.go:203-205 | Whether or not it reads back as asked, every other block of that text is kept. |
| SshRepository.Repository.Create | backend/internal/sshconfig/repository.go:206-218 | The same for Create: a valid alias that no definition has, and the appended block. |
| SshRepository.Repository.Delete | backend/internal/sshconfig/repository.go:219-227 | The same for Delete: the first block of the alias is cut out, and without one it is not found. |
| SshRepository.Repository.Duplicate | backend/internal/sshconfig/repository.go:228-244 | The same for Duplicate, with the errors for an invalid alias, a taken alias and a missing source, in this order. |
| SshRepository.DuplicateAddsCopy | backend/internal/sshconfig/repository.go:228-244 | The text a duplication writes keeps every definition and adds one, the copy of the first definition of the alias if and only if its values are clean. |
| DefinitionService.Service.constructor | backend/internal/definition/service.go:24-30 | A new process recovers what is pending; every write ends as the given fates say. |
| DefinitionService.Service.Put | backend/internal/definition/transaction_storage.go:58-111 | One atomic step on disk that is done, refused, takes effect although it fails, or ends the process before or after. |
| DefinitionService.Service.RestoreTransaction | backend/internal/definition/transaction.go:127-140 | Configuration, then options, each put back as recorded, the second also when the first fails; only the end of the process stops it. |
| DefinitionService.Service.RecoverPendingTransaction | backend/internal/definition/transaction.go:57-73 | A committed journal is dropped, a prepared one undone and then dropped. |
| DefinitionService.Service.BeginTransaction | backend/internal/definition/transaction.go:74-90 | Recovers what is pending and then writes the prepared journal with the snapshot taken before. |
| DefinitionService.Service.AbortTransaction | backend/internal/definition/transaction.go:114-126 | Undoes and drops the journal only when the undo went through. |
| DefinitionService.Service.CompleteTransaction | backend/internal/definition/transaction.go:91-113 | Writes the commit record, rolls back when that fails, and drops the journal. |
| DefinitionService.Service.ChangeOptions | backend/internal/definition/service.go:66-70 | The option steps one after the other, each its own write. |
| DefinitionService.Service.ChangeConfig | backend/internal/definition/service.go:62-65 | One change of the configuration file. |
| DefinitionService.Service.Perform | backend/internal/definition/service.go:48-180 | Snapshot, begin, configuration, options, complete, with the abort branch of each step. |
| DefinitionService.Service.Create | backend/internal/definition/service.go:48-77 | Whatever the writes do, a Create that ends well leaves the configuration changed as asked, the given settings under the alias and every other setting as it was. With every write done it succeeds exactly when the configuration change is not refused and the settings can be saved, and otherwise leaves both files. |
| DefinitionService.Service.Update | backend/internal/definition/service.go:78-120 | The same for Update: without a rename the alias has the given settings, or its own when none are given; after a rename the new alias has the given settings, or those of the old one, and the old one has none; no other alias changes. |
| DefinitionService.Service.Duplicate | backend/internal/definition/service.go:121-150 | The same for Duplicate: the copy has the settings of the source, the source keeps them. |
| DefinitionService.Service.Delete | backend/internal/definition/service.go:151-180 | The same for Delete: the alias has no settings, every other alias keeps its own. |
| DefinitionEffects.CreateAfter | backend/internal/definition/service.go:48-77 | The option steps of Create can be taken exactly when the given settings can be saved, and have the effect on every alias that is stated by `SettingOf`. |
| DefinitionEffects.UpdateAfter | backend/internal/definition/service.go:78-120 | The same for Update, with and without a rename and with and without settings. |
| DefinitionEffects.DuplicateAfter | backend/internal/definition/service.go:121-150 | The same for Duplicate. |
| DefinitionEffects.DeleteAfter | backend/internal/definition/service.go:151-180 | The same for Delete. |
| DefinitionEffects.RejectedIff | backend/internal/definition/service.go:66-70 | A step is rejected exactly for an options file that cannot be read or settings that are not acceptable; naming an alias twice is no step. |
| DefinitionEffects.OperationDone | backend/internal/definition/service.go:48-180 | With every write done an operation that can be carried out succeeds with its result, and one that cannot fails and leaves the files, also over a journal that is pending. |
| DefinitionEffects.FineResult | backend/internal/definition/service.go:48-180 | Whatever the writes do, an operation that ends well left its result. |
| DefinitionJournal.RenameMovesSettings | backend/internal/definition/service.go:78-120 | A rename takes the settings along, drops them from the old alias and touches no other alias. |
| DefinitionJournal.RecoveriesKeepLogical | backend/internal/definition/transaction.go:57-73 | Any number of interrupted recoveries followed by a complete one ends in the pair that the journal stood for from the start. |
| DefinitionJournal.OperationFacts | backend/internal/definition/service.go:48-180 | For every way the writes may end: what an operation leaves, by whether the commit record was written and whether the rollback went through. |
| DefinitionJournal.Atomic | backend/internal/definition/transaction.go:57-140 | Wherever an operation stops and however often recovery is cut short, both files end up wholly old or wholly new: new exactly when the commit record was written. |
| DefinitionJournal.LateCommit | backend/internal/definition/transaction.go:91-126 | A commit write that takes effect although it reports failure: exactly which file ends up old and which new, whatever happens to the steps after it. |
| DefinitionJournal.LateCommitIsAtomicIff | backend/internal/definition/transaction.go:91-126 | That case is atomic if and only if the operation left one of the files as it was, or both are put back, or neither is. |
| DefinitionJournal.TornCommit | backend/internal/definition/transaction.go:91-126 | A concrete run in which the recovered pair is torn. |
| DefinitionJournal.StaleSnapshot | backend/internal/definition/transaction.go:74-90 | The snapshot is taken before recovery: started over a prepared journal, an operation that fails brings back what recovery had undone. |
| DefinitionJournal.StaleRun | backend/internal/definition/transaction.go:74-90 | A concrete run of two operations, neither of which commits: the second, refused at once, replaces the old pair by the new one. |
| DefinitionJournal.FailureChangesNothingIff | backend/internal/definition/transaction.go:74-126 | A failed operation that began changes nothing if and only if it started on settled files. |
| DefinitionJournal.RunsAreSerial | backend/internal/definition/service.go:48-180 | Over whole runs of operations, failures, crashes and restarts the logical pair is what the committed operations make of it one after the other. |
| DefinitionJournal.SettledAfter | backend/internal/definition/transaction.go:57-140 | Files are settled again after success, after a complete rollback and after recovery. |
| TransportPool.Manager.RegisterOwner | backend/internal/connection/remote.go:71-79 | Registers the owner with one channel. |
| TransportPool.Manager.RollBackOwner | backend/internal/connection/remote.go:83-90 | Takes the owner and its transport back. |
| TransportPool.Manager.FindTransport | backend/internal/connection/reuse.go:19-27 | The registered transport behind a source instance, and none otherwise. |
| TransportPool.Manager.ReuseTransport | backend/internal/connection/reuse.go:70-80 | Adds a channel for a derived instance exactly when the transport has channels and is not draining. |
| TransportPool.Manager.RollBackReuse | backend/internal/connection/reuse.go:84-90 | Takes the channel back and stops nothing. |
| TransportPool.Manager.FinishInstance | backend/internal/connection/manager.go:203-228 | One channel less, the owner closed when it is the one that exits, and the transport stopped and off the register exactly when the owner has gone and nobody uses it; nothing else changes. |
| TransportPool.Manager.ReserveAuxiliary | backend/internal/connection/auxiliary.go:17-29 | Pins the transport exactly when it is registered and has channels, draining or not. |
| TransportPool.Manager.AcquireAuxiliary | backend/internal/connection/auxiliary.go:30-55 | Reserves, and gives back at once when the context is over or the socket is not ready. |
| TransportPool.Manager.ReleaseAuxiliary | backend/internal/connection/auxiliary.go:56-78 | One pin less, and the deferred stop. |
| TransportPool.Manager.RefreshSources | backend/internal/connection/transport_watch.go:32-90 | A registered transport starts draining if and only if its alias is gone while the configuration is available (state "deleted"), or else its alias is resolved to another revision (state "changed"); every other transport is left exactly as it was. |
| TransportPool.Manager.ShutDown | backend/internal/connection/manager.go:175-196 | Stops every registered transport once and empties the pool. |
| TransportPool.Lease.Finish | backend/internal/connection/auxiliary_reader.go:57-76 | A reader or lease releases its pin once, however often it is closed. |
| TransportPool.StepKeepsValid | backend/internal/connection/manager.go:203-228 | Every critical section keeps the books of every transport. |
| TransportPool.RunKeepsValid | backend/internal/connection/transport_pool.go:1-41 | So does every run before the shutdown. |
| TransportPool.ReachablePool | backend/internal/connection/transport_pool.go:1-41 | In every reachable pool Channels is the number of mapped instances (one more for an owner that could not be created), AuxiliaryChannels the number of pins, OwnerClosed holds iff a created owner is unmapped, and a transport is stopped at most once, with both counts zero. |
| TransportRuns.StepIsMonotone | backend/internal/connection/transport_pool.go:32-41 | A channel count of zero, draining and a closed owner are never undone by a step, before or after a shutdown. |
| TransportRuns.RunIsMonotone | backend/internal/connection/transport_pool.go:32-41 | Nor by any run. |
| TransportRuns.LeakIff | backend/internal/connection/reuse.go:84-90 | A step leaves a transport behind if and only if it takes back the last channel of a derived instance that could not be created after the owner had gone. |
| TransportRuns.NothingLeaks | backend/internal/connection/manager.go:203-228 | Runs without such a failed creation leak nothing. |
| TransportRuns.LeakStays | backend/internal/connection/reuse.go:84-90 | A leaked transport is never stopped before the shutdown. |
| TransportRuns.LeakExample | backend/internal/connection/reuse.go:84-90 | A concrete run of four steps that leaks. |
| TransportRuns.ShutdownStopsOnce | backend/internal/connection/manager.go:175-196 | A shutdown, whatever came before it, stops exactly the registered transports; only those whose rollback took them off the register stay unstopped. |
| TransportRuns.StepKeepsSound | backend/internal/connection/remote.go:71-90 | Creations, rollbacks, exits, releases and shutdowns in any order keep what is known of every transport: enough channels for all who can still give one back, and its count of stops. |
| TransportRuns.EveryRunStops | backend/internal/connection/manager.go:175-228 | Over every run, with creations and rollbacks also after shutdowns: a transport has not been stopped if and only if it is registered, or was taken off the register by its rollback; and none is stopped more than twice. |
| TransportRuns.StopsOnce | backend/internal/connection/reuse.go:70-80 | It is stopped at most once, exactly when it is off the register, in every run in which no reuse joins it after it was taken off. |
| TransportRuns.StopsAgainIff | backend/internal/connection/manager.go:203-228 | A second stop is exactly the exit of an instance that takes the last channel of a stopped transport whose owner had gone. |
| TransportRuns.StoppedTwice | backend/internal/connection/manager.go:203-228 | A concrete run of seven steps in which a transport is stopped twice. |
| TransportPool.RefreshIsARun | backend/internal/connection/transport_watch.go:32-90 | What the watcher does is a run of draining steps, one for each verdict, in whatever order it comes to the transports. |
| TransportPool.ReserveThenRelease | backend/internal/connection/auxiliary.go:30-55 | Giving a pin back at once restores the pool. |
| Auth.ValidateCode | backend/internal/auth/totp_candidate.go:70-91 | Returns the step a code matches within one step of now, as section 4.2 of RFC 6238 allows. |
| Auth.Manager.constructor | backend/internal/auth/auth.go:15-68 | An installation without enrollment and sessions satisfies the invariant. |
| Auth.Manager.Persist | backend/internal/auth/auth.go:72-79 | The saved list is the refresh map in the order of session ids, unless the write fails. |
| Auth.Manager.Invalidate | backend/internal/auth/totp.go:77-101 | Every credential in memory goes, even when the session file cannot be saved, and a new epoch starts. |
| Auth.Manager.Reconcile | backend/internal/auth/totp.go:32-76 | Nothing changes if and only if the manager is in step with the file; otherwise every credential goes and the state is exactly that of the file and of the save. |
| Auth.Manager.Restart | backend/internal/auth/auth.go:15-68 | A process starts under any password: exactly the saved sessions of the present enrollment that are not expired and were made under this password come back; no access token does. The list is saved again exactly when one is left behind, and the start fails exactly when the file cannot be read or that save fails. |
| Auth.Manager.Issue | backend/internal/auth/tokens.go:14-44 | Succeeds exactly when configured, with randomness and the list saved: a new session bound to the cached enrollment; otherwise everything is as before, with the error of the first that fails. |
| Auth.Manager.Install | backend/internal/auth/tokens.go:14-44 | New maps are saved or put back. |
| Auth.Manager.Authenticate | backend/internal/auth/tokens.go:46-58 | Accepts exactly unexpired access tokens of the present epoch: nothing issued before an invalidation is ever accepted after it. |
| Auth.Manager.FindSession | backend/internal/auth/lifecycle.go:20-32 | The session that carries a refresh token, if any. |
| Auth.Manager.Refresh | backend/internal/auth/tokens.go:60-122 | Succeeds if and only if the manager is in step with the file and storage is in order, a session made under the present password carries the token and has not expired, both random tokens are there and the save goes through; each other case has its error. It rotates that token, keeps expiry and enrollment, leaves one access token and retires the old token for good. |
| Auth.Manager.Rotate | backend/internal/auth/tokens.go:76-122 | The rotation succeeds exactly with randomness and a save, renews token, times and agent only, and otherwise puts everything back. |
| Auth.Manager.Logout | backend/internal/auth/lifecycle.go:33-60 | Ends the session of the refresh token, else that of the access token, with all its access tokens; an error means that a session was found and the list not saved. |
| Auth.Manager.Revoke | backend/internal/auth/lifecycle.go:103-117 | Ends exactly the given session; success means the saved list equals the map. |
| Auth.Manager.LogoutOthers | backend/internal/auth/lifecycle.go:118-133 | Keeps only the given session and its access tokens. |
| Auth.Manager.IsSessionActive | backend/internal/auth/lifecycle.go:12-19 | A session is active exactly when the manager is in step with the file and it has not expired and was made under the present password. |
| Auth.Manager.CurrentSession | backend/internal/auth/lifecycle.go:61-81 | The session of a request exactly when the manager is in step with the file and it has not expired; one that is over is dropped. |
| Auth.Manager.List | backend/internal/auth/lifecycle.go:82-102 | Exactly the usable sessions; the others are dropped on the way. |
| Auth.Manager.MakeChallenge | backend/internal/auth/challenge.go:28-49 | Adds a challenge with its expiry and drops expired ones. |
| Auth.Manager.NewPending | backend/internal/auth/totp.go:142-163 | At most sixteen pending logins: the one that expires first makes room. |
| Auth.Manager.RecordFailure | backend/internal/auth/totp.go:186-199 | Counts a wrong code against the pending token and against the service. |
| Auth.Manager.Login | backend/internal/auth/totp_flows.go:17-60 | Succeeds if and only if the challenge is live, the manager is not locked, storage is in order, the proof is over this challenge and under the password, and a random token is there; the pending token is for setup or verification by the reconciled state. Every wrong proof, and nothing else, is counted and may lock. |
| Auth.Manager.Setup | backend/internal/auth/totp_flows.go:71-101 | Exactly which error or candidate a setup token gets: one candidate secret until it expires. |
| Auth.Manager.ConfirmSetup | backend/internal/auth/totp_flows.go:102-150 | Succeeds if and only if the setup token can be confirmed, the code is of the candidate and the present time step or a neighbour, and both saves go through. A wrong code, and nothing else, counts against the token and may lock. The enrollment with its step is on disk exactly when its write took effect; once that write succeeds every earlier credential is gone, also when the session list cannot be saved. |
| Auth.Manager.AdoptEnrollment | backend/internal/auth/totp_flows.go:222-231 | Switches to an enrollment and invalidates. |
| Auth.Manager.AcceptCode | backend/internal/auth/totp_flows.go:151-176 | Accepts a code if and only if the pending login is live and of this enrollment and the code is right and later than every accepted one; each other case has its error. A wrong or replayed code, and nothing else, counts against the token, which the fifth uses up, and against the lock. |
| Auth.Manager.Recheck | backend/internal/auth/totp_flows.go:177-196 | The file is read again before it is written: exactly a changed, deleted or unreadable enrollment is answered with its error and invalidates instead of coming back. |
| Auth.Manager.SpendStep | backend/internal/auth/totp_flows.go:197-212 | Succeeds exactly when the step is saved, the process stays up, randomness is there and the session list is saved, and gives the error of the first that fails. The step is on disk whenever its write took effect; a crash in between issues nothing; success opens exactly one session with exactly these tokens. |
| Auth.Manager.VerifyTOTP | backend/internal/auth/totp_flows.go:151-212 | Succeeds if and only if the code would be accepted and nothing goes wrong after it, with the error of each case. Issues tokens only for a pair of enrollment and step never used before, over crashes and restarts, and never for the step used to enroll: section 5.2 of RFC 6238. |
| Auth.LoadedTokens | backend/internal/auth/auth.go:45-61 | Sessions that survive a restart carry distinct tokens and none that was rotated out. |
| Layout.CleanInstanceIDs | backend/internal/server/connection_layout.go:139-159 | With a seen set the list keeps each available id once and only if unseen, and the set grows by it; without one only unavailable ids go. |
| Layout.CleanFacts | backend/internal/server/connection_layout.go:139-159 | A cleaned list has no repetition, holds exactly the available unseen ids and keeps their relative order. |
| LayoutValidation.ValidateConnectionInstanceOrder | backend/internal/domain/validation.go:17-32 | Accepts exactly the valid orders. |
| LayoutValidation.UuidIff | backend/internal/domain/validation.go:12-12 | An id is valid if and only if it is five groups of lower-case hexadecimal digits with the version and the variant in place. |
| LayoutValidation.HexIs | backend/internal/domain/validation.go:12-12 | The digits are the sixteen lower-case hexadecimal ones. |
| LayoutValidation.ValidateGroupName | backend/internal/domain/validation.go:112-125 | Accepts exactly the valid group names. |
| LayoutValidation.NameIff | backend/internal/domain/validation.go:112-125 | A name is valid if and only if it is one to sixty-four visible characters and blanks, without a blank at either end, and does not read as the reserved name in any case. |
| LayoutValidation.ValidateGroups | backend/internal/domain/validation.go:44-65 | Accepts exactly distinct valid ids, distinct names without case, and at most ten members. |
| LayoutValidation.ValidateGroupOrder | backend/internal/domain/validation.go:66-84 | Accepts exactly the orders that name every group and the reserved id once, decided by counting. |
| LayoutValidation.OrderListsGroups | backend/internal/domain/validation.go:66-84 | The order of a valid layout lists each group and the reserved id, each at one place, and nothing else. |
| LayoutValidation.ValidateMembers | backend/internal/domain/validation.go:85-105 | Accepts exactly valid ids that no list before had. |
| LayoutValidation.ValidateConnectionInstanceLayout | backend/internal/domain/validation.go:37-110 | Accepts exactly the valid layouts. |
| LayoutNormal.NormalizeConnectionInstanceOrder | backend/internal/server/connection_order.go:72-95 | Fails exactly for invalid orders; otherwise the known ids in that order and then the others. |
| LayoutNormal.LegacyOrderIsComplete | backend/internal/server/connection_layout.go:62-73 | The layout made from the flat order holds each instance once. |
| LayoutNormal.NormalizeConnectionInstanceLayout | backend/internal/server/connection_layout.go:57-137 | The four loops compute the normal form of the saved layout and report a change exactly when it differs. |
| LayoutTheorems.Partition | backend/internal/server/connection_layout.go:57-137 | Whatever was saved, every available instance ends in exactly one list and nothing else is in any. |
| LayoutTheorems.OrderComplete | backend/internal/server/connection_layout.go:85-121 | The order names every group id and the reserved id once, the groups follow it, and none is lost unless one carries the reserved id. |
| LayoutTheorems.RelativeOrder | backend/internal/server/connection_layout.go:85-132 | Groups keep name and member order, the order starts with the saved entries, and only instances that were nowhere are added, at the end. |
| LayoutTheorems.ValidityKept | backend/internal/server/connection_layout.go:57-137 | A valid layout stays valid against at most 256 valid instance ids. |
| LayoutTheorems.UnchangedIff | backend/internal/server/connection_layout.go:136-136 | No change is reported for exactly the layouts in normal form. |
| LayoutTheorems.FixpointIff | backend/internal/server/connection_layout.go:57-137 | Normalising twice is normalising once if and only if no group carries the reserved id without the order naming it. |
| LayoutTheorems.ValidHasNoReservedGroup | backend/internal/domain/validation.go:46-53 | Valid layouts never are in that exception. |
| LayoutTheorems.LegacySettles | backend/internal/server/connection_layout.go:62-73 | The layout made from the flat order is already in normal form. |
| LayoutFlat.FlattenConnectionInstanceLayout | backend/internal/server/connection_layout.go:172-186 | The loops concatenate the lists in the group order. |
| LayoutFlat.FlattenedIsAll | backend/internal/server/connection_layout.go:172-186 | Flattening a layout in normal form lists every available instance exactly once. |
| LayoutFlat.OrderConnectionInstances | backend/internal/server/connection_order.go:97-119 | The ordered instances first, the others after them as they come. |
| LayoutFlat.PermutationIff | backend/internal/server/connection_order.go:97-119 | The result is a permutation of the instances if and only if the order repeats no known id. |
| LayoutFlat.SidebarFollowsLayout | backend/internal/server/connection_order.go:59-70 | For a layout in normal form the sidebar is a permutation of the instances in exactly the flattened order. |
| LayoutFlat.SidebarAfterNormalising | backend/internal/server/connection_layout.go:29-48 | So it is after normalising any saved layout outside the exception. |
| LayoutFlat.ReservedGroupIsLost | backend/internal/server/connection_layout.go:89-118 | A concrete layout in the exception whose second normalisation loses a group. |
| MessageFile.ValidateMessageDraft | backend/internal/persistence/messages.go:123-167 | Accepts exactly the valid drafts. |
| MessageAnswers.DraftMeans | backend/internal/persistence/messages.go:123-167 | A draft is valid if and only if it is complete, has the severity and presentation key of its kind or a change between two different known states, a label of shown characters and distinct instance ids. |
| MessageFile.ValidateMessageFile | backend/internal/persistence/messages.go:81-121 | Accepts exactly files with rising sequences, distinct ids and keys, valid drafts, a cursor in range and at most 500 messages. |
| MessageFile.PruneMessageFile | backend/internal/persistence/messages.go:173-195 | Keeps the recent ones and of those the last 500, and reports a change exactly when something went. |
| MessageAnswers.RetainedMeans | backend/internal/persistence/messages.go:173-195 | What is kept are the last 500 of the messages of the last seven days. |
| MessageFile.RetainedGood | backend/internal/persistence/messages.go:173-195 | Retention keeps a file valid and repairs one that is only too long. |
| MessageFile.KeepsTheNewest | backend/internal/persistence/messages.go:173-195 | A recent message is dropped only for 500 that have larger sequences. |
| MessageFile.UnreadMessageCount | backend/internal/persistence/messages_repository.go:156-164 | Counts the messages after the cursor. |
| MessageFile.UnreadAreLast | backend/internal/persistence/messages_repository.go:156-164 | The unread messages are exactly the last ones. |
| MessageStore.Store.LoadMessages | backend/internal/persistence/messages.go:32-48 | A missing file is an empty one, an unreadable or invalid one an error. |
| MessageStore.Store.SaveMessages | backend/internal/persistence/messages.go:50-63 | Only valid files are written; a write may fail before or after it took effect. |
| MessageStore.Store.AppendMessage | backend/internal/persistence/messages_repository.go:11-43 | The new disk is one append step, and the answer is the stored record, the earlier one of the same key, or the error, exactly as that step went. |
| MessageStore.Store.MarkMessagesReadThrough | backend/internal/persistence/messages_repository.go:81-99 | One marking step and the state after it. |
| MessageStore.Store.DeleteMessage | backend/internal/persistence/messages_repository.go:111-130 | One deletion step and whether something went. |
| MessageStore.Store.ClearMessages | backend/internal/persistence/messages_repository.go:132-150 | One clearing step and how many went. |
| MessageStore.Store.InitializeMessages | backend/internal/persistence/messages.go:65-79 | One pruning step at start. |
| MessageAnswers.AppendMeans | backend/internal/persistence/messages_repository.go:11-43 | A draft whose key a kept message has is answered with that message; any other valid draft becomes the record with the next number. |
| MessageAnswers.MarkMeans | backend/internal/persistence/messages_repository.go:81-99 | Marking saves exactly when the number, cut at the latest, is beyond the cursor, and moves nothing but the cursor and the revision. |
| MessageAnswers.ClearMeans | backend/internal/persistence/messages_repository.go:132-150 | Clearing saves an empty file read to its end, unless it is empty already. |
| MessageAnswers.InitializeMeans | backend/internal/persistence/messages.go:65-79 | Starting saves what retention leaves, exactly when it drops something. |
| MessageAnswers.DeleteMeans | backend/internal/persistence/messages_repository.go:111-130 | Deleting saves exactly when a message has the id, and takes out the first such message. |
| MessageAnswers.StateMeans | backend/internal/persistence/messages_repository.go:156-164 | The state answered is that of the file, and unread are as many as come after the cursor. |
| MessageStore.WithRecordIs | backend/internal/persistence/messages_repository.go:22-38 | The file after an append, written out: what the two prunings and the new record leave. |
| MessageStore.AppendValidIff | backend/internal/persistence/messages_repository.go:34-41 | An append of a valid draft with a new key yields a file the validator accepts if and only if no message that stays carries its id. |
| MessageStore.OthersAreValid | backend/internal/persistence/messages_repository.go:81-150 | Every other save is of a valid file. |
| MessageStore.DeletedGood | backend/internal/persistence/messages_repository.go:118-123 | Deleting removes exactly the message of that id and keeps the order. |
| MessageStore.EffectIsLater | backend/internal/persistence/messages_repository.go:11-150 | No operation lowers the latest sequence, the cursor or the revision, or brings back an old message; only a stored one raises the latest sequence, by one. |
| MessageStore.RunIsLater | backend/internal/persistence/messages_repository.go:11-150 | So over any run with any write failures, and the file stays readable. |
| MessageStore.NumbersAreNeverReused | backend/internal/persistence/messages_repository.go:34-37 | Over any run two messages found under one sequence number, before and after prunings, deletions and clearings, are the same message. |
| MessageStore.AppendKeepsTheNewest | backend/internal/persistence/messages_repository.go:34-38 | An append drops only expired messages or, of 501, the oldest. |
| MessageStore.AppendTwice | backend/internal/persistence/messages_repository.go:23-33 | Appending the same key again returns the first message. |
| MessageStore.MarkReads | backend/internal/persistence/messages_repository.go:88-97 | Marking leaves exactly the later messages unread. |
| MessagePages.ListMessages | backend/internal/persistence/messages_repository.go:45-79 | Cursor and limit errors in their order, else the page of that cursor. |
| MessagePages.FillPage | backend/internal/persistence/messages_repository.go:59-77 | The two nested loops yield the last messages before the cursor, the next cursor and whether there are more. |
| MessagePages.CursorContinues | backend/internal/persistence/messages_repository.go:65-75 | A next cursor is valid and leaves exactly what comes before its page. |
| MessagePages.WalkVisitsAll | backend/internal/persistence/messages_repository.go:45-79 | Following the cursors over an unchanged file visits every message once in descending order on the fewest pages, full but for the last, and exactly the last has no more. |
| MessagePages.WalkListsTheFile | backend/internal/persistence/messages_repository.go:45-79 | From cursor 0 every stored message is visited, on one page when empty and otherwise on as many as the limit goes into the count, rounded up. |
| AgentProjection.KeysAreDistinct | backend/internal/agent/sync_projection.go:45-45 | A transition key belongs to one runtime and one index: runtime, NUL, decimal index is injective. |
| AgentProjection.RuntimesAreDistinct | backend/internal/agent/sync_remote.go:154-157 | A runtime id belongs to one session, creation time and socket, the digest taken as injective. |
| AgentProjection.EndpointStore.Update | backend/internal/agent/store.go:93-117 | The record is changed in memory and on disk, or memory is as before; a failed write may have landed. |
| AgentProjection.Service.AppendTransitionMessage | backend/internal/agent/sync_projection.go:110-141 | One append step on the message store, nothing without one. |
| AgentProjection.Service.AcceptSnapshot | backend/internal/agent/sync_projection.go:14-83 | The branches for older runtimes, older, equal and newer indices, the message before the projection, and every error. |
| AgentAnswers.AnswerIs | backend/internal/agent/sync_projection.go:14-83 | A snapshot is stale exactly when it is from a runtime of the past, or of the present runtime and older than or in conflict with what is known. A new change of state fails with its message exactly when that cannot be appended; everything else fails only with the store. |
| AgentAnswers.AcceptedTarget | backend/internal/agent/sync_projection.go:53-83 | Field by field what an accepted snapshot leaves of its target and endpoint, and that no other target or endpoint changes. |
| AgentAnswers.RepeatedTarget | backend/internal/agent/sync_projection.go:97-108 | A snapshot that repeats what is known marks the target available and changes nothing else. |
| AgentAnswers.StaleTarget | backend/internal/agent/sync_projection.go:24-37 | A stale one marks the target stale when that can be saved, and changes nothing else. |
| AgentAnswers.ResetTarget | backend/internal/agent/initialization.go:104-126 | A re-initialisation starts the projection of its target again, keeps the runtime and the last change, and touches no other target. |
| AgentAnswers.MarkedTarget | backend/internal/agent/operation_state.go:30-43 | The outcome of an initialisation names the component and leaves what was accepted. |
| AgentAnswers.ChangeIsTold | backend/internal/agent/sync_projection.go:110-141 | After an accepted change of state with a new key the last message of the store has the next number and tells exactly that change: from the state of the target before, to the state, runtime, index and tmux session of the snapshot, with severity error exactly for error and success exactly for relax. |
| AgentAnswers.NothingElseIsTold | backend/internal/agent/sync_projection.go:42-52 | Without a change of state within a runtime no message is stored. |
| AgentRuns.OneMessagePerIndex | backend/internal/agent/sync_projection.go:42-51 | After any run of snapshots, failed appends, failed saves, retries and restarts two stored transition messages are equal if and only if runtime and index agree. |
| AgentRuns.TransitionIsTold | backend/internal/agent/sync_projection.go:42-52 | An accepted change of state has its message in the store, unless its key is already the last transition key: then the store stays as it is. |
| AgentRuns.LastKeyWasTold | backend/internal/agent/sync_projection.go:42-83 | Over any run from nothing a last transition key, in memory or on disk, has had its message stored at some step of the run. |
| AgentRuns.UntoldChangesNothing | backend/internal/agent/sync_projection.go:46-50 | When the message cannot be stored the projection does not move. |
| AgentRuns.DraftIsValidIff | backend/internal/agent/sync_projection.go:126-136 | The message about a change of state is a valid draft if and only if the provider is the one the store knows and the labels and ids are given: checking the snapshot alone is not enough. |
| AgentRuns.OtherProvidersStall | backend/internal/agent/sync_projection.go:46-50 | A snapshot of any other provider that changes the state is refused, with the projection unchanged, if and only if its key is not already the last transition key. |
| AgentRuns.AcceptedIsProgress | backend/internal/agent/sync_projection.go:22-40 | Accepting a snapshot raises the index within a runtime and never goes back in creation time. |
| AgentRuns.StepProgress | backend/internal/agent/sync_projection.go:14-83 | Every step but a re-initialisation is progress for a sound target: the index climbs within a runtime, and once a snapshot has been accepted the creation time does not go back. |
| AgentRuns.IndexNeverDrops | backend/internal/agent/sync_projection.go:28-40 | Over any run in which the runtime stays, the index never drops and the state changes only with a strictly larger one; the target may have just been re-initialised. |
| AgentRuns.CreatedNeverDrops | backend/internal/agent/sync_projection.go:85-96 | Over any run from an accepted snapshot or from nothing the creation time never drops, and at the same time the socket stays. |
| AgentRuns.RuntimeStays | backend/internal/agent/sync_projection.go:85-96 | From there a runtime that is left returns only after another session of the same socket and second. |
| AgentRuns.EmptyIsSound | backend/internal/agent/sync_projection.go:14-32 | Nothing stored is a sound start of a run. |
| AgentRuns.SnapshotIsSound | backend/internal/agent/sync_projection.go:22-83 | Whatever was there before, an accepted and written snapshot makes its target sound. |
| AgentRuns.ResetIsSound | backend/internal/agent/initialization.go:104-126 | A re-initialisation leaves what the index needs. |
| AgentRuns.IndexAfterReset | backend/internal/agent/initialization.go:104-126 | So in the interval after any re-initialisation the index climbs while the runtime stays. |
| AgentRuns.IntervalAfterSnapshot | backend/internal/agent/sync_projection.go:22-83 | And after the first accepted snapshot of an interval, from any world, creation time and socket follow too. |
| AgentRuns.ReturnLowersIndex | backend/internal/agent/sync_projection.go:85-96 | A run of three valid snapshots from nothing, with such a return, after which the accepted index is lower than before. |
| RemoteMonitorService.Service.Enter | backend/internal/monitor/remote_monitor.go:60-88 | One turn of the loop: cached answer, a channel to wait on, or a new probe. |
| RemoteMonitorService.Service.Acquire | backend/internal/monitor/remote_monitor.go:99-108 | A slot, or the answer of a caller whose context is over: the sample with its age, stale after fifteen seconds and unavailable after three failures, or none. |
| RemoteMonitorService.Service.Record | backend/internal/monitor/remote_monitor.go:124-145 | A sample resets the failures and is answered fresh; a failed probe adds one and is answered with the last sample, aged as above. |
| RemoteMonitorService.Service.Finish | backend/internal/monitor/remote_monitor.go:91-98 | Closes the channel only of a state still registered with it; afterwards the channel is closed. |
| RemoteMonitorService.Service.Release | backend/internal/monitor/remote_monitor.go:159-159 | Gives the slot back. |
| RemoteMonitorService.Service.Clear | backend/internal/monitor/remote_monitor.go:161-172 | Closes the channel of the owner and drops its state. |
| RemoteMonitorService.Service.Close | backend/internal/monitor/remote_monitor.go:174-186 | Closes every channel under way and drops every state. |
| RemoteMonitorService.EnterAnswers | backend/internal/monitor/remote_monitor.go:60-88 | A call is answered from a sample not older than four seconds, else waits on the channel of the probe under way, else probes. |
| RemoteMonitorRuns.StepKeepsValid | backend/internal/monitor/remote_monitor.go:48-186 | Every critical section keeps the invariant on states, channels, probers and slots. |
| RemoteMonitorRuns.RunKeepsValid | backend/internal/monitor/remote_monitor.go:48-186 | So does every run. |
| RemoteMonitorRuns.OpenIffInflight | backend/internal/monitor/remote_monitor.go:83-98 | In every reachable world a channel is open if and only if it is that of a registered state, and is closed at most once. |
| RemoteMonitorRuns.OneProberEach | backend/internal/monitor/remote_monitor.go:73-86 | A registered state has at most one prober, and has one exactly while it has a channel. |
| RemoteMonitorRuns.FourProbesAtMost | backend/internal/monitor/remote_monitor.go:147-159 | At most four probes run at once. |
| RemoteMonitorRuns.FinishCloses | backend/internal/monitor/remote_monitor.go:91-98 | Once a prober has finished its channel is closed, whoever closed it. |
| RemoteMonitorRuns.ProberCloses | backend/internal/monitor/remote_monitor.go:90-145 | From every valid world the steps of a prober with a slot close its channel. |
| RemoteMonitorRuns.WaiterIsServed | backend/internal/monitor/remote_monitor.go:73-82 | No waiter is lost: from every valid world at most six steps of other calls close the channel a call waits on. |
| RemoteMonitorRuns.ClearWakes | backend/internal/monitor/remote_monitor.go:161-186 | Clear and Close wake the waiters at once. |
| RemoteMonitorAnswers.AnswersAreOwn | backend/internal/monitor/remote_monitor.go:60-186 | Over every run of calls, probes, cancellations, clearings and closings: a call asks for one owner, and is answered with no sample or with one that a call for that same owner has taken. |
| ShellWords.RemoteCommandInvocation | backend/internal/connection/auxiliary.go:153-164 | The loop builds the arguments for a script on standard input or as an argument. |
| ShellWords.QuoteReads | backend/internal/connection/tmux.go:75-77 | Inside any line a quoted value is read back as it was, attached to the word before it, and the quote is closed. |
| ShellWords.QuoteReadsBackIff | backend/internal/connection/tmux.go:75-77 | Quoting is undone exactly for values without a NUL. |
| ShellWords.LineReads | backend/internal/connection/auxiliary.go:153-164 | Plain and quoted parts joined by spaces are split into exactly their words. |
| ShellWords.InvocationReadsBackIff | backend/internal/connection/auxiliary.go:153-164 | The joined invocation is split into exactly the intended words if and only if script and arguments have no NUL. |
| ShellWords.TmuxCommandReadsBack | backend/internal/connection/tmux.go:26-28 | The login shell hands the script to sh unchanged. |
| TmuxScript.PiecesStay | backend/internal/connection/tmux.go:30-77 | Text of the forms the script is made of, quoted values among them, leaves the shell outside quotes. |
| TmuxScript.TmuxScriptReadsBack | backend/internal/connection/tmux.go:30-73 | In the text of the script, for every directory and session name, the assignment, the probe and the launch each begin a line outside quotes, end a word there, and are read with the value back as it was. |
| TmuxVariables.VariablesAreSet | backend/internal/connection/tmux.go:30-73 | For every directory, session name and marker the script sets each variable before it expands it. |
| RateLimit.Sink.AllowLocked | backend/internal/clientdiag/sink.go:140-160 | Refill, cap, decision and charge, as functions of the buckets before. |
| RateLimit.Sink.PruneLocked | backend/internal/clientdiag/sink.go:174-191 | Buckets idle for more than an hour go, and of more than 1024 others exactly the least recently used ones. |
| RateLimit.Sink.AcceptAt | backend/internal/clientdiag/sink.go:94-138 | Refuses a batch without session, without events or with more than 20, and changes nothing; otherwise prunes and charges only the events not seen before, in full or not at all; refusals leave the seen list alone. |
| RateLimit.Sink.MarkSeenLocked | backend/internal/clientdiag/sink.go:162-172 | At most 4096 entries, and every remembered id is listed with its time. |
| RateLimitRuns.TakenIsBounded | backend/internal/clientdiag/sink.go:94-191 | Over any run of the sink in order, pruning included, with at most 1024 sessions: what a session got and has left is at most its level before and the refill of the time that passed. |
| RateLimitRuns.AnyIntervalIsBounded | backend/internal/clientdiag/sink.go:94-191 | In any interval of any run of the sink with at most 1024 sessions no session has more than 120 events accepted plus 60 for each minute. |
| RateLimitRuns.BoundedIff | backend/internal/clientdiag/sink.go:183-190 | That bound holds for runs of up to n sessions if and only if n is at most 1024. |
| RateLimitRuns.RoomBreaksTheBound | backend/internal/clientdiag/sink.go:183-190 | A run of 1025 sessions in a quarter of a minute, with batches of at most 20 events, in which one session, whose bucket was dropped for room, has 140 events accepted where the bound is 135. |
| RateLimitRuns.OldestGoes | backend/internal/clientdiag/sink.go:183-190 | Of 1025 busy buckets pruning drops exactly the one used longest ago. |
| RateLimitRuns.ClockBackBreaksTheBound | backend/internal/clientdiag/sink.go:145-152 | A run of one session with batches of at most 20 events whose clock goes back: 160 events within the third of a minute the clock shows, where the bound is 140. |
| RateLimitRuns.PruningIsInvisible | backend/internal/clientdiag/sink.go:174-191 | With at most 1024 sessions every decision of the sink is that of a sink that never prunes. |
| RateLimitRuns.IdleEvictionIsInvisible | backend/internal/clientdiag/sink.go:174-191 | For any number of sessions and times in order, calls and decisions are possible for the sink if and only if they are for one that evicts for room but never for idleness. |
| RateLimitRuns.FewSessions | backend/internal/clientdiag/sink.go:174-191 | Up to 1024 sessions pruning drops idle buckets only. |
| RateLimitExact.DecisionIs | backend/internal/clientdiag/sink.go:140-160 | A batch is taken exactly when it is within the level: 60 more for each minute since the bucket was used and never more than 120; a taken one is paid for, a refused one leaves the level. |
| RateLimitExact.LevelIsLeastRoom | backend/internal/clientdiag/sink.go:140-160 | Over any run in order the level of a session is the least of what the rate leaves over the windows that end now. |
| RateLimitExact.TakenIff | backend/internal/clientdiag/sink.go:94-191 | In any run of the sink in order with at most 1024 sessions a batch is taken if and only if with it the session has at most 120 events and 60 for each minute in every window that ends with it. |

## Left out

- ssh configuration text is ASCII: the source walks runes in `tokenize` while offsets are bytes.
- SshRepository.Repository.Update: aliases are not empty, as the decoding of definition ids demands before (backend/internal/connection/transport_watch.go:222-231); the same for Delete and Duplicate.
- Definitions carry no warnings: their line numbers shift with every edit.
- File permissions, symbolic links and temporary names are not modelled; replacing a file is one step that is done, refused, or in place although an error came back.
- The ETag of the configuration is the text with its fingerprint, the HMAC taken as injective; token hashes, digests of runtime ids and TOTP codes are injective too, and random ids and tokens are fresh.
- Random sources, clocks, the network and the fates of writes are parameters.
- The options file is one value per alias; its YAML form is not modelled, and an unreadable options file is one state.
- DefinitionJournal.Atomic: assumes an operation does not start over a prepared journal and that the commit write does not take effect when it fails; `StaleSnapshot`, `LateCommit` and `LateCommitIsAtomicIff` say what happens otherwise.
- A definition service without an options store keeps no journal and is not modelled.
- The terminal runtime is assumed not to report the exit of a creation that returned an error.
- User agents are kept whole: truncation, and trimming of tokens, are left out.
- Auth.Manager.Restart: settings that make the source refuse to start are left out.
- The channel that announces a changed enrollment, and its watcher, are left out; the watcher only calls the reconciler.
- LayoutTheorems.ValidityKept: group names are ASCII, so the ranges of bidirectional control characters and Unicode case folding do not occur.
- Saving a changed layout under the next revision, and the conflict it may meet, are left out.
- Revisions and sequences are unbounded: the wrap of 64-bit counters is left out.
- AgentProjection.Service.AcceptSnapshot: a re-initialisation of the target between the reading and the update inside one call is left out; it comes before or after the call.
- Timestamps of synchronisation and error texts of the projection are left out; the endpoint's user, host, port and aliases play no part in accepting a snapshot.
- The metrics of a remote sample are opaque, and the baseline for processor usage is left out.
- TmuxScript.TmuxScriptReadsBack: the marker is free of single quotes, as the hexadecimal tokens of the source are (backend/internal/connection/transport_watch.go:206-214), and the values are free of NUL; what sh does with the script besides quoting is left out.
- RateLimitRuns.AnyIntervalIsBounded: tokens are exact reals, so rounding of floating point is left out.
- Redaction of diagnostic text, log lines and the rotating writer are left out; they do not decide whether events are accepted.
- Terminal handling, the browser manager, HTTP handlers, uploads and notifications move data between the parts above and are left out.
