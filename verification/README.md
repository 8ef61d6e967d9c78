# Hermes HQ: a verified model of its core

Hermes HQ keeps a library of notes, dispatches agent runs, guards a private
vault and shows all of it in a browser. This project models the parts where a
mistake would lose or leak something, and proves what they keep.

* **Export and restore.** `NotesExport` prints a note as yaml-lite frontmatter,
  the verbatim body, a Thoughts block and an attachments block. `YamlLite` and
  `NoteReader` read it back, and `YamlRules` says what else the scanner takes.
  `FrontmatterRoundTrip`, `FrontmatterExact`, `NoteRoundTrip` and `NoteExact` say
  exactly when the two are inverse.
  `Restore`, `RestoreProps` and `ExportRestore` rebuild a whole library and its
  link graph from an export, `RestoreRules` says what becomes of any note file,
  and `RestoreDry` when a dry restore tells the truth.
* **Importing a dump.** `Classify` decides every unit, `ImportPlan` pairs
  mirrors and plans, `Importer` carries the plans out in two passes, for real or
  dry. `ImportTexts` and `ImportRules` say what comparing, titling, ranking,
  deciding and filing mean for the texts and paths themselves. `ImportTwice` proves
  conservation and idempotence, `DryRun` gives the exact conditions under which a
  dry run reports what the real run reports, and `DryRunTrap` a dump on which it
  does not.
* **The dispatcher.** `DispatchBoard` holds tasks, runs and reviews and every
  step others may take; `DispatchTrace` says what a tick does as a function of the
  board and of such steps between any two of its own; `Dispatch` is the
  tick itself.
* **The vault.** `VaultKeys` is the life of the wrapped data key, refined to a
  ledger without cryptography; `VaultSession` the idle-expiring keys in memory;
  `VaultMove` the transaction that seals a note and destroys its plaintext, with
  a fault possible at every step. Sealing is an ideal authenticated cipher
  (section 2 of RFC 5116), key derivation an injective function (section 6 of
  RFC 7914), content digests are injective.
* **Buffers and caches.** `Terminal` ties the ring, the pending input and the
  client queues of a terminal session to the full histories; `ReadCache` is the
  generation-checked cache under interleaving; `Questions` the watermarked scan
  for questions of running runs.
* **Housekeeping.** `Reaper` and `ReaperSweep` decide which run worktrees go,
  what is archived and where links lead afterwards; `Paging` is the two-table
  timeline read a page at a time.

Objects the source updates in place are classes here; their methods are tied to
functions on values, and the lemmas are about those functions. Clocks, random
choices, git and process outcomes, and whatever other threads or processes do
meanwhile, are parameters, so every statement holds for all of them.

Where the code does less than its own comments promise, the model follows the
code, and a lemma says when the promise holds:

* a body with a carriage return, or with a line that starts with one of the two
  delimiters, does not survive export and restore (`NoteExact.BodyRoundTripExact`,
  `NoteExact.BodyIsChanged`), though the link graph does (`ExportRestore.GraphRestored`);
* a title of filler characters or of more than 300 characters, which the note
  table takes, is restored as another one (`ExportRestore.TitleExact`,
  `ExportRestore.TitlesLost`);
* a dry restore announces a copied note file twice, and a note the store refuses
  (`RestoreDry.DryRestoreExact`, `RestoreDry.DryRestoreMisleads`);
* a dry run of the importer can report a fallback where the real run appends
  (`DryRun.DryRunAgrees`, `DryRunTrap.DryRunMisleads`);
* changing the scrypt constants and then the passphrase makes the recovery code
  useless (`VaultKeys.RecoveryExact`, `VaultKeys.RaisedConstantsStrandTheCode`);
* a read that returns between the two halves of an invalidation leaves a stale
  value, and nothing else does (`ReadCache.StaleExact`, `ReadCache.SlippingInHappens`);
* a sweep that was asked for unclean worktrees removes one whose untracked files
  have names git prints in quotes, or that git cannot read, without archiving
  them (`ReaperSweep.AllSavedExact`, `ReaperSweep.AllSavedIffNoneMisread`,
  `ReaperSweep.WorkIsLost`);
* a page that ends between two events of one time hides the second
  (`Paging.WalkExact`, `Paging.OneOfTwoIsSkipped`).

## Model

| member | source | states |
|---|---|---|
| YamlLite.SplitFlowLoop | backend/notes_import.py:1005-1027 | the two-flag scanner splits a flow sequence only at commas outside quotes, as the recursive reading of it does |
| YamlLite.UnescapeLoop | backend/notes_import.py:1030-1041 | the scanner drops one backslash before each escaped character |
| YamlLite.ParseLoop | backend/notes_import.py:970-984 | the line loop yields the map in which a later line of a key wins |
| YamlRules.LineMeans | backend/notes_import.py:977-983 | blank lines, comments and lines without a colon are passed over, all others are read |
| YamlRules.FramedValue | backend/notes_import.py:988-994 | in quotes of either kind stands a string, in brackets a list |
| YamlRules.NumberValue | backend/notes_import.py:1001-1002 | digits, with or without a sign, are the number they spell |
| YamlRules.BareValue | backend/notes_import.py:988-1003 | what is not framed, no number and none of the five words is itself |
| FrontmatterRoundTrip.EscapeIsOnePass | backend/notes_export.py:70-72 | the two chained replacements are one pass that escapes each backslash and quote |
| FrontmatterRoundTrip.UnescapeInvertsEscape | backend/notes_import.py:1030-1041 | reading back a quoted scalar yields the string that was printed, for every string |
| YamlRules.ScalarComesBack | backend/notes_export.py:75-82 | every scalar, a number of either sign included, comes back as it was printed |
| FrontmatterRoundTrip.SplitFlowKeepsQuoted | backend/notes_import.py:1005-1027 | a quoted element passes the splitter whole, whatever commas, quotes and backslashes it holds |
| FrontmatterRoundTrip.FlowValue | backend/notes_export.py:85-86 | a printed list of strings parses back to that list |
| FrontmatterRoundTrip.FrontmatterComesBack | backend/notes_export.py:89-107 | every field of the printed frontmatter comes back and no other key appears, when the strings stay on one line |
| FrontmatterExact.FrontmatterNeedsOneLine | backend/notes_import.py:970-984 | if the fields come back, every string was on one line: the condition is necessary |
| NoteReader.SplitDocument | backend/notes_import.py:1044-1076 | the loop over lines yields the body before the first delimiter and the Thoughts of the section |
| RestoreRules.HeadingExact | backend/notes_import.py:1066-1071 | a line begins a Thought exactly when it is the mark, a stamp without white space, and white space to the end |
| RestoreRules.FrontmatterIs | backend/notes_import.py:1094-1101 | a file is a note exactly when it opens with a rule and has another; its frontmatter ends at the first, and one line end after it is dropped |
| NoteRoundTrip.MarkFreeIffAbsent | backend/notes_import.py:1044-1076 | a delimiter occurs after a line end exactly when some later line starts with it |
| NoteRoundTrip.BodyEndExact | backend/notes_export.py:160-182 | the reader cuts a printed document at the end of the body exactly when no line after its first starts with a delimiter; no delimiter straddles the boundary |
| NoteRoundTrip.SectionIs | backend/notes_import.py:1044-1076 | the Thoughts section read back is exactly the block that was printed |
| NoteRoundTrip.ThoughtsRoundTrip | backend/notes_import.py:1044-1076 | well-formed entries come back as the same stamps and texts in order |
| NoteExact.ThoughtsExact | backend/notes_export.py:160-182 | the entries come back if and only if each is non-blank, trimmed of newlines and free of heading and delimiter lines |
| NoteExact.NoteRoundTripExact | backend/notes_import.py:1079-1121 | reading a printed note gives its whole frontmatter, and its body and Thoughts unchanged if and only if the format carries them |
| NoteExact.BodyRoundTripExact | backend/notes_import.py:1094-1101 | the body comes back if and only if it has no carriage return and no delimiter line |
| NoteExact.BodyIsChanged | backend/notes_import.py:1094-1101 | two bodies that do not come back: one with a carriage return, one with a delimiter on its own line |
| NoteLibrary.FindHash | core/wm_store.py:5625-5638 | the lowest note that carries the digest, or none when no note does |
| NoteLibrary.Store.CreateNote | core/wm_store.py:5440-5484 | a row with a real title, known type, status and author, a home when active and no blank or overlong tag is appended; any other changes nothing |
| NoteLibrary.Store.AddNoteEntry | core/wm_store.py:6221-6245 | a non-blank Thought is appended stripped to an existing note; anything else changes nothing |
| NoteLibrary.Store.LinkNote | core/wm_store.py:6247-6265 | a link of a known kind between existing ends is stored once; anything else changes nothing |
| NoteLibrary.NormalizeOfStripped | backend/notes_import.py:130-138 | storing a text stripped does not change its normalised form |
| ImportTexts.TidyIsNormal | backend/notes_import.py:130-138 | a text without byte-order marks whose only white space is single blanks between words is its own normal form |
| ImportTexts.SpacingIsIgnored | backend/notes_import.py:130-138 | any white space counts as one blank, outer white space and byte-order marks count for nothing |
| ImportTexts.TitleMeans | backend/notes_import.py:570-577 | a title with more than filler in it is kept up to 300 characters; otherwise the first line of the body that says something behind heading marks names the note, or the name of its source |
| Restore.RestoreNoteStep | backend/notes_import.py:1259-1282 | one note is found by its digest, refused, or created with its Thoughts, and the id map follows |
| Restore.RestoreLinksLoop | backend/notes_import.py:1322-1350 | every link spec of every restored note is mapped, linked or dropped in order |
| Restore.FindStranger | backend/notes_import.py:1198-1207 | the restore is refused exactly when the library holds a note the export does not account for |
| Restore.Import | backend/notes_import.py:1177-1256 | plan, refuse a foreign library, create up to the limit, then link: the library and report are those of the two-pass function; a dry run only looks |
| RestoreRules.RowMeans | backend/notes_import.py:1159-1174 | any note file is restored with its body, its title, type, author, status, area and project as its frontmatter says, or with what is taken for a field that says nothing, with its non-blank tags, and in the inbox when it is active and its homes are unknown |
| RestoreRules.SameNoteExact | backend/notes_import.py:1105-1108 | two files are one note exactly when their content hash, or the name made of their id, the words of their title and body, and their attachments agree |
| RestoreProps.IdMapExact | backend/notes_import.py:1236-1256 | two restored notes get one id exactly when their digests are equal, so distinct digests make the id map injective |
| RestoreProps.RestoredRows | backend/notes_import.py:1259-1282 | into an empty library each accepted plan becomes its own row, in order, with its Thoughts |
| RestoreProps.LinksExact | backend/notes_import.py:1322-1350 | a link row exists afterwards exactly when it was there or some restored note asks for it under the id map |
| RestoreRules.AskedExact | backend/notes_import.py:1330-1349 | a spec asks for a link exactly when it spells a known kind and a number: a note by the id it got, if it is of this export, a task or schedule by its own, if it is there |
| RestoreProps.RestoreTwice | backend/notes_import.py:1177-1256 | restoring again creates no note and changes nothing |
| RestoreDry.DryRestoreExact | backend/notes_import.py:1236-1256 | for every library, export and limit a dry restore names the notes the restore creates if and only if each note not yet there can be created and no earlier one has its digest |
| RestoreDry.DryRestoreMisleads | backend/notes_import.py:1236-1256 | two exports on which a dry restore announces more notes than are created: a note file that lies there twice, and a note with a tag of 61 characters |
| ExportRestore.ContentsRestored | backend/notes_import.py:1177-1282 | an exported library restored into an empty one has every note under its own new id with all its frontmatter, without errors; its title if and only if it needs no cut and says something, its body and Thoughts when the format carries them |
| ExportRestore.TitleExact | backend/notes_import.py:570-577 | a title is restored as it was if and only if it is trimmed, at most 300 characters, and not filler alone, unless the first words of the body are the same filler |
| ExportRestore.TitlesLost | backend/notes_import.py:570-577 | a title of dots comes back as the first line of the body, and no longer title comes back |
| ExportRestore.IdentitiesSuffice | backend/notes_import.py:1105-1108 | notes with different content hashes, or old ids where they have none, are never taken for one another, whatever became of their texts |
| ExportRestore.GraphRestored | backend/notes_import.py:1322-1350 | a note link exists after the restore if and only if it is the image of an exported link between two exported notes, for every library of one-line frontmatter strings, whatever its bodies, Thoughts and titles hold |
| ExportRestore.ExportRestoredTwice | backend/notes_import.py:1177-1256 | restoring an export a second time leaves the library as it is, for the same libraries |
| Classify.KeptIffSurvivor | backend/notes_import.py:344-409 | a unit is kept exactly when it is the best-ranked candidate of its digest |
| Classify.KeptDistinct | backend/notes_import.py:366-379 | kept units have pairwise distinct digests |
| Classify.KeeperExists | backend/notes_import.py:366-379 | every candidate has exactly one keeper of its digest |
| Classify.DecisionOrderFree | backend/notes_import.py:324-330 | with distinct idents a decision does not depend on the order in which units were read |
| Classify.DropHeldAndEmpty | backend/notes_import.py:353-373 | what carries a secret is held, what holds nothing is dropped, all others remain |
| Classify.GroupByDigest | backend/notes_import.py:376-378 | each remaining unit is in the group of its digest and in no other |
| Classify.MarkGroup | backend/notes_import.py:379-387 | all but the survivor of a group become duplicates that name it |
| Classify.MarkDuplicates | backend/notes_import.py:376-387 | the survivors are the keepers of all groups, everyone else is decided |
| Classify.DecideSurvivors | backend/notes_import.py:397-411 | each survivor gets the filing decision of the rules |
| Classify.ClassifyUnits | backend/notes_import.py:344-411 | every unit ends with exactly the one decision the rules give it, a duplicate naming a kept unit of equal digest |
| ImportRules.RankExact | backend/notes_import.py:319-330 | live copies rank before those under `obsidian/Archive/` or a numbered archive, then those with fewer slashes in their path, then by the first character in which the paths differ |
| ImportRules.DecisionMeans | backend/notes_import.py:344-411 | every decision told from texts and paths: held for a secret, empty of words and attachments, outdone by a better placed unit of the same source id, words and attachments, archived as a draft of a live file of its name or as a short or link-only Keep fragment, or left to the librarian |
| ImportRules.BetterPlaceIsKept | backend/notes_import.py:324-330 | an archived copy gives way to its live twin, a deep one to a shallow one |
| ImportPlan.TargetIsBest | backend/notes_import.py:620-635 | a mirror with a candidate note has a target, and no candidate is better by domain and ident |
| ImportPlan.PairsExact | backend/notes_import.py:591-636 | a unit is paired exactly when it is a mirror and some note of its dump has its title |
| ImportPlan.FindMirrorPairs | backend/notes_import.py:591-636 | the search over all units yields that pairing |
| ImportPlan.PlanExact | backend/notes_import.py:639-686 | held units are held, survivors are created or appended to the note they mirror, all others skipped |
| ImportRules.TargetMeans | backend/notes_import.py:591-636 | a task made from something has a target exactly when some note of its dump has its title up to case and spacing: one of its own domain if there is any, and of those the first by path |
| ImportRules.FilingMeans | backend/notes_import.py:654-674 | what needs no reader is archived without an area; of focus, what is done is archived and what has an area is active there; all else is in the inbox |
| Importer.Create | backend/notes_import.py:802-821 | a unit becomes a note with its digest, or an error and no note |
| Importer.FirstPassStep | backend/notes_import.py:770-792 | one unit of the first pass: already there, planned, created, held or refused |
| Importer.TargetNoteId | backend/notes_import.py:824-831 | the note of a mirror's target from this run, else from the library by digest |
| Importer.LandOn | backend/notes_import.py:901-923 | a text known on the target is not added again, any other is added and remembered |
| Importer.AppendMirror | backend/notes_import.py:851-923 | one unit of the second pass: already there, fallen back, landed or already landed |
| Importer.ImportSource | backend/notes_import.py:745-799 | classify, plan, create, then append: library and report are those of the two-pass function; a dry run leaves the library alone |
| ImportTwice.RunSettles | backend/notes_import.py:745-799 | after a real run without errors every planned unit has its note or its text on its target, and no note was lost |
| ImportTwice.ImportTwiceIsQuiet | backend/notes_import.py:770-799 | a second run on the same dump, real or dry, creates and appends nothing and leaves every note as it is |
| ImportTwice.NothingLost | backend/notes_import.py:344-409 | after an unlimited real run without errors each unit is held and reported, empty, carried by a note of its digest, which has its text if the run made it, or a Thought on the note its kept twin mirrors |
| ImportTwice.NewNotesHoldTheirUnits | backend/notes_import.py:802-821 | every note an import makes, with errors or without, has the digest, the body, the stripped topics, each once, and, when it says something and fits, the title of a unit of the dump, and is filed as that unit's plan or its fallback says |
| ImportRules.NewNotesAreRight | backend/notes_import.py:802-821 | that unit carries no secret, is not empty and is outdone by no other of the same record; its note is archived, active or in the inbox, and in an area, as its source, status and domain say |
| DryRun.PlansAgree | backend/notes_import.py:745-923 | on any regular plan the two kinds of run report alike if and only if no mirror meets a note made meanwhile or shares a note under two names |
| DryRun.DryRunAgrees | backend/notes_import.py:745-923 | the same for every library, dump of distinct idents and limit whose writes the store accepts |
| DryRun.DryRunAgreesWhenTargetsKept | backend/notes_import.py:745-923 | when every mirror names a kept note, the dry run reports what the real run reports |
| DryRunTrap.DryRunMisleads | backend/notes_import.py:883-900 | a concrete dump whose mirror names a duplicate, on which the two reports differ |
| DispatchBoard.StepElsewhere | backend/writes.py:234-262 | whatever wrappers and the owner do starts no run, takes no slot that no answer accounts for, and never reopens a claimed review |
| DispatchBoard.LiveCounts | core/wm_dispatch.py:344-347 | the slots taken are the rows that say running |
| Dispatch.NextReady | core/wm_store.py:1818-1829 | the oldest claimable tasks, distinct, at most the limit, and all of them when fewer |
| Dispatch.PendingReviews | core/wm_store.py:2728-2738 | exactly the pending reviews |
| Dispatch.RunningRuns | core/wm_store.py:2152-2160 | exactly the running runs |
| DispatchTrace.WorkClaimsRightly | core/wm_dispatch.py:352-379 | whatever others do in between, each candidate of the queue that is given a run could be claimed on the board its turn came on, and the run was new then |
| DispatchTrace.ReviewsTakeRightly | core/wm_dispatch.py:385-411 | the same for reviews, pending when their turn came |
| DispatchTrace.QuietWorkServesAll | core/wm_dispatch.py:352-379 | when nobody interferes and every launch succeeds, each task of the queue is given a run, in order |
| DispatchTrace.PromotedExact | core/wm_dispatch.py:335-337 | promotion changes no run, no review and no age; afterwards a task may be claimed exactly when it is not held and was ready, to be reworked, or waiting and released |
| Dispatch.Engine.ClaimTask | core/wm_store.py:1792-1815 | the claim is won if and only if the task is claimable on the board at that moment; a lost claim changes nothing, a won one that status alone |
| Dispatch.Engine.ClaimReview | core/wm_store.py:2673-2690 | the claim is won if and only if the review is pending at that moment, when no run has it; a lost one changes nothing |
| Dispatch.Engine.StartRun | core/wm_store.py:2049-2062 | one new running run, one slot more |
| Dispatch.Engine.Launch | core/wm_dispatch.py:249-294 | a run whose wrapper cannot be spawned gives its slot back; a spawned one has a live process; an error before leaves it running without one |
| Dispatch.Engine.DispatchTask | core/wm_dispatch.py:352-379 | the step is that of the trace: a task is passed over exactly when it can no longer be claimed; a claimed one ends as failed or has a run of its own, and only the latter takes a slot |
| Dispatch.Engine.DispatchReview | core/wm_dispatch.py:386-411 | the same for a review, which is closed or has its single run linked to it |
| Dispatch.Engine.ScanRun | core/wm_dispatch.py:217-246 | a run is judged by its process and its idling; a stalled one is finalised, its claimed task stalled with it and its review closed as failed, any other is left alone |
| Dispatch.Engine.DispatchWork | core/wm_dispatch.py:351-379 | the loop is that of the trace, run for run; at most one slot for each candidate, each run for the candidate it was picked for, no two for one task; an error ends it |
| Dispatch.Engine.DispatchReviews | core/wm_dispatch.py:385-411 | the same for reviews: at most as many as slots were left, a failed launch using up none |
| Dispatch.Engine.FillWork | core/wm_dispatch.py:339-379 | the slots are counted, then the queue is read, then the loop runs, each on the board of its moment; the slots are not overrun, whatever happens in between |
| Dispatch.Engine.FillReviews | core/wm_dispatch.py:385-411 | the same for reviews in what work left |
| Dispatch.Engine.Scan | core/wm_dispatch.py:419-440 | every run that was running with a dead process is found, and stays over unless answered |
| Dispatch.Engine.Tick | core/wm_dispatch.py:297-440 | at every moment work and review runs together stay within the larger of the cap and what was running, plus runs answered meanwhile; the runs it starts are exactly those of the two loops over the oldest tasks and the pending reviews, each claimable or pending on the board of the moment it was claimed, work runs for different tasks, no review with two; every new running run was reported or is the one whose launch raised; orphans of the beginning are freed unless the tick raised; a skipped or paused tick starts nothing |
| Dispatch.QuietTickServesAll | core/wm_dispatch.py:335-379 | when nobody interferes and every launch succeeds, a tick starts a run for each of the oldest tasks that are ready, to be reworked, or waiting and released, as many as there are free slots, in order and for no other |
| Dispatch.WaitingIsNotStarted | core/wm_store.py:2335-2350 | a task that waits for approval when the tick begins is given no run by it, whatever others do meanwhile, unless someone moves that task |
| Dispatch.LostIsOrphan | core/wm_dispatch.py:249-277 | a run left without a process by a tick that raised is one the next tick frees |
| Dispatch.Engine.Service | core/wm_dispatch.py:297-440 | the bound over any sequence of ticks with anything in between |
| VaultKeys.AnswersAgree | backend/vault.py:212-345 | every answer of the vault is the answer of a ledger that knows no cryptography, for all histories |
| VaultKeys.OneDataKey | backend/vault.py:264-345 | whatever opens the vault, at any time, yields one and the same data key |
| VaultKeys.PassphraseExact | backend/vault.py:264-278 | exactly the current passphrase unlocks |
| VaultKeys.RecoveryExact | backend/vault.py:281-305 | a code opens if and only if it is the latest up to spelling and the stored parameters are those it was wrapped with |
| VaultKeys.LatestCodeOpens | backend/vault.py:281-323 | with fixed constants exactly the latest code opens |
| VaultKeys.MintedCodeOpens | backend/vault.py:116-125 | typed in capitals and digits, in groups of any kind joined by dashes, a code opens if and only if it is the latest one with the dashes taken out of both |
| VaultKeys.PlainCodeIsNormal | backend/vault.py:123-125 | a code of capitals and digits is its own normal form |
| VaultKeys.SeparatorsIgnored | backend/vault.py:123-125 | a blank or dash anywhere in a code makes no difference |
| VaultKeys.CaseIgnored | backend/vault.py:123-125 | nor does a letter made small |
| VaultKeys.RaisedConstantsStrandTheCode | backend/vault.py:326-345 | changing the constants and then the passphrase makes the code fail |
| VaultKeys.Vault.InitVault | backend/vault.py:212-251 | both wraps of a new key, once; a short passphrase or a second call is refused |
| VaultKeys.Vault.UnlockVault | backend/vault.py:264-278 | opens through the passphrase wrap alone |
| VaultKeys.Vault.RecoverVault | backend/vault.py:281-305 | opens through the recovery wrap under the stored parameters |
| VaultKeys.Vault.SetPassphrase | backend/vault.py:326-345 | rewraps the same key and rewrites the shared parameters |
| VaultKeys.Vault.RegenerateCode | backend/vault.py:308-323 | rewraps the same key under a new code and leaves the parameters alone |
| VaultSession.KeyStore.PutKeyFor | backend/vault.py:365-370 | a key is put for a session, its clock started; no session is refused |
| VaultSession.KeyStore.GetKey | backend/vault.py:372-383 | a key idle no longer than the limit is returned and its clock restarted, any other is forgotten |
| VaultSession.KeyStore.PeekKey | backend/vault.py:385-399 | tells whether the key is there without restarting its clock |
| VaultSession.PeeksAreInvisible | backend/vault.py:385-399 | removing every peek from a history with a non-decreasing clock leaves what each get returns as it was |
| VaultSession.GetExact | backend/vault.py:351-407 | get returns the key put last if and only if it was not dropped and no pause between uses exceeded the limit |
| VaultMove.Vault.AddEntries | backend/vault.py:839-840 | every non-blank Thought is sealed stripped, in order |
| VaultMove.Vault.AddFiles | backend/vault.py:841-854 | every readable attachment is sealed, unreadable ones are passed over |
| VaultMove.Vault.SealAndCheck | backend/vault.py:835-872 | success means that the stored row opens to the whole note, whatever the writes did |
| VaultMove.ContentIsWhole | backend/vault.py:820-854 | what is sealed has the title, the body, behind it the number of the note and each of its tags, every Thought stripped in order, and the bytes of every readable attachment in order |
| VaultMove.Vault.DestroyAndCommit | backend/vault.py:874-881 | plaintext and audit change together or not at all |
| VaultMove.Vault.Unlink | backend/vault.py:885-896 | only moved files disappear, and those that stay are named |
| VaultMove.Vault.MoveNote | backend/vault.py:788-925 | every state a restart could find is untouched, or has a row sealed under the key that holds the whole note, with its number and tags, and only plaintext gone; a refusal changes nothing; without faults it succeeds exactly for the notes that can be moved |
| Terminal.Client.Offer | backend/terminal.py:56-62 | a full queue loses its oldest item; the queue is a bounded end of all that was offered |
| Terminal.Client.Take | backend/terminal.py:415-430 | items leave in order, each joining what was taken |
| Terminal.Client.NothingElseMissing | backend/terminal.py:56-62 | taken and queued items are all that was offered without those pushed out, in order |
| Terminal.Session.Push | backend/terminal.py:104-109 | the ring is the last bytes of all output, and each attached client was offered exactly the output since it attached |
| Terminal.Session.Write | backend/terminal.py:129-137 | what was accepted followed by what is pending is all that was typed unless input overflowed or the terminal broke, and writing goes on until the terminal is busy or breaks or nothing is pending |
| Terminal.Session.Flush | backend/terminal.py:139-152 | every byte the terminal says it took is given to it in order, and only an empty buffer, a busy answer or a broken one stops the writing; pending input is waited for exactly while there is some |
| Terminal.Session.Attach | backend/terminal.py:325-329 | a new client starts with nothing offered at the present end of the output |
| Terminal.Session.Detach | backend/terminal.py:331-338 | a client leaves and the others keep what they were offered |
| Terminal.Wake | backend/terminal.py:415-430 | one burst leaves as frames that flatten to what was taken, in order, though more arrives while sending |
| Terminal.Relay | backend/terminal.py:415-430 | whatever the session pushes while it is sending, all frames so far flatten to everything offered without what was pushed out, in order |
| Terminal.Serve | backend/terminal.py:408-430 | a client that lost nothing has been sent exactly the output since it attached, up to the moment the pump waits again, though more is pushed while it is sending |
| ReadCache.OnlySlippedInIsStale | backend/memory.py:276-295 | in every reachable state no error is cached, and a stale value is one stored between the two halves of an invalidation |
| ReadCache.StaleExact | backend/memory.py:276-295 | after any history a stale value is cached if and only if some read that began before the sweep of its home was kept under a current generation while an invalidation was half done, and nothing renewed it since |
| ReadCache.CachedExact | backend/memory.py:276-295 | after any history a value is cached for a key if and only if a read of that key returned it, no error, with no raising of its home's generation since that read began, and nothing was stored or thrown out for the key since |
| ReadCache.NothingStale | backend/memory.py:276-295 | with an invalidation as one step no cached value was begun before its home's latest invalidation |
| ReadCache.SlippingInHappens | backend/memory.py:290-295 | a history in which a stale value stays cached |
| ReadCache.Memory.Cached | backend/memory.py:276-287 | a fresh hit is served, otherwise the computed value, kept only if its home's generation is unchanged |
| ReadCache.Memory.Invalidate | backend/memory.py:290-295 | entries of the home go first, its generation is raised after |
| Questions.AnnouncedOnce | backend/questions.py:185-208 | no question is announced twice, and a run is guessed about at most once |
| Questions.NoneSkipped | backend/questions.py:161-209 | up to a stored watermark every active assistant message with a fence has its own notification and every other one whose last line asks has that of its run; each notification is there for such a message of the transcript |
| Questions.ScanAdvances | backend/questions.py:161-209 | a completed scan takes the next 200 messages off what waits |
| Questions.EveryQuestionIsAnnounced | backend/questions.py:161-237 | whatever fails in between, after enough completed scans of a run that stays running every fenced question that waited has its own notification and every other one that of its run |
| Questions.FencedExact | backend/questions.py:37-42 | a message has a fence when the opening mark stands anywhere in it with nothing but white space up to the end of its line, closed or not |
| Questions.LastAsksExact | backend/questions.py:195-197 | a text asks when its last line with anything on it ends in a question mark |
| Questions.Scanner.ScanRun | backend/questions.py:161-209 | one batch, row by row; a failing scan keeps its announcements and the old watermark |
| Questions.Scanner.ScanRunningRuns | backend/questions.py:212-237 | every running run in turn, then the watermarks of exactly those |
| Reaper.Holds | core/worktree_gc.py:101-129 | the runs held are exactly those some row of which is not spent: run and task over, process dead, and the last end of the task not within the day |
| Reaper.PlanSweep | core/worktree_gc.py:132-167 | every directory is planned once in listing order; a run name without a number ends the plan |
| Reaper.ReapedExact | core/worktree_gc.py:132-167 | a directory is reaped if and only if it lies below the root, is readable with nothing changed in it, owned, named `run-` and a number, and no row of that run holds it |
| Reaper.ReapedIsSafe | core/worktree_gc.py:101-167 | a reaped worktree of a known run has nothing to lose: run and task over, process dead, grace past, tree unchanged |
| Reaper.LiveRunIsKept | core/worktree_gc.py:101-167 | the worktree named for a run that is running or whose process lives is never reaped |
| Reaper.RunIdExact | core/worktree_gc.py:97-98 | a name is read as the run whose number follows `run-`, leading zeros or not |
| Reaper.OwnerReadBack | core/worktree_gc.py:69-80 | the pointer file git writes into a worktree leads back to its repository |
| Reaper.EachOnce | core/worktree_gc.py:132-167 | each directory is reaped or kept, never both |
| ReaperSweep.ArchiveExact | core/worktree_gc.py:213-233 | the archive holds exactly the contents of the listed regular files, each once |
| ReaperSweep.Parachute | core/worktree_gc.py:213-233 | the loop with its set of digests builds that archive |
| ReaperSweep.SavedExact | core/worktree_gc.py:88-94 | a content is archived if and only if a regular file with it stands where git prints the path of an untracked one |
| ReaperSweep.PlainIsSaved | core/worktree_gc.py:213-233 | an untracked regular file of a readable tree whose name git prints as it is has its content archived |
| ReaperSweep.AllSavedExact | core/worktree_gc.py:251-268 | every untracked file of the removed trees is archived if and only if each one git quotes or cannot tell of has its content under a path that is read right |
| ReaperSweep.AllSavedIffNoneMisread | core/worktree_gc.py:251-268 | where no two files have one content, if and only if git quotes and withholds none of them |
| ReaperSweep.QuotedIsLost | core/worktree_gc.py:88-94 | a tree with a plain and a quoted name is removed when unclean ones are asked for: the plain file is archived, the quoted one is not |
| ReaperSweep.UnreadableIsLost | core/worktree_gc.py:240-246 | a tree git cannot read is removed as well, with nothing of it archived |
| ReaperSweep.WorkIsLost | core/worktree_gc.py:240-268 | both happen to one concrete worktree with the files `a` and `b c` |
| ReaperSweep.RepointExact | core/worktree_gc.py:170-208 | a result path in a reaped worktree leads to the first owning repository that has its file; any other, and one whose file is nowhere, stays |
| ReaperSweep.LinksFollow | core/worktree_gc.py:170-208 | every link of every task into the tree of a target leads, after the sweep, to the first owning repository that has its file; a link that leads into none, or whose file is nowhere, stays |
| ReaperSweep.ParseExact | core/worktree_gc.py:49 | a path of one line, with or without a line end to close it, is read as the last run directory in it and what stands below |
| ReaperSweep.OwnersExact | core/worktree_gc.py:259-261 | the repositories asked are those that own a target, each once, in order |
| ReaperSweep.RescueTask | core/worktree_gc.py:181-206 | the entries of one task are repointed in place, their number kept |
| ReaperSweep.Sweeper.RescueLinks | core/worktree_gc.py:170-208 | every task is repointed or left as it was |
| ReaperSweep.Sweeper.RemoveAll | core/worktree_gc.py:262-268 | the targets up to the first without an owner go, save those git keeps |
| ReaperSweep.Sweeper.Sweep | core/worktree_gc.py:236-268 | a dry sweep changes nothing, nor does one that could archive nothing of the files reported; any other archives the listed files when unclean trees are asked for, repoints every link into a target, and removes the targets git lets go |
| ReaperSweep.SweptIsSafe | core/worktree_gc.py:236-252 | what an automatic sweep goes for has nothing to lose |
| ReaperSweep.DirtyTargets | core/worktree_gc.py:240-246 | with unclean trees included, the targets are exactly the directories below the root named for a run that is not held, save clean ones without an owner |
| ReaperSweep.NothingWithoutTables | core/worktree_gc.py:101-167 | when the tables cannot be read, no sweep goes for anything, unclean trees included or not |
| Paging.PageIsTop | backend/overview.py:62-69 | the merged page of two limited queries is the newest of everything wanted |
| Paging.WalkExact | backend/overview.py:44-69 | following the cursor shows everything wanted exactly once, newest first, if and only if no page ends between two events of one time |
| Paging.WalkShowsAll | backend/overview.py:44-69 | with distinct times the walk is the whole timeline |
| Paging.OneOfTwoIsSkipped | backend/overview.py:60-69 | two events of one time and a page of one: one is never shown |
| Paging.ActivityPage | backend/overview.py:44-69 | one page shows only what was asked for, nothing it leaves out is newer than what it shows, and it leaves something out only when it is full; the next cursor is there exactly when the page is full |

## Left out

- SQLite, file locks, git, tar and PTY mechanics: only their outcomes are parameters, and one transaction is one step.
- HTML entities, Unicode white space classes and case folding beyond ASCII: normalising collapses white space and drops byte-order marks only.
- NoteLibrary.Store.CreateNote: does not model whether an area or project exists, revisions, the search index or the activity log, because no caller modelled here relies on them.
- Secret patterns and folder topics: what was found in a body, and the tags of its folders, are fields of a unit.
- Importer.ImportSource: does not model attachments, the quarantine table, the planned counts or the report of split notes, because none of them changes what is created or appended.
- Restore.Import: does not model attachments, provenance or the restoring of areas and tags, which a dry run skips, nor a `focus_id` written into a file by hand, and follows the code in looking up live areas only; the status printed beside a created note is left out.
- DryRun.DryRunAgrees: asks that the store accepts every planned row and that no mirror is blank, because a dry run makes no write that could be refused.
- resolve_start_point, run_workdir, briefs and the auto-backup: choosing a branch is a small function of its own, and the others only write files.
- DispatchBoard.StepElsewhere: does not model reuse of process ids or owner edits of runs, and an owner stop may fall inside a tick though the source waits for the lock.
- Dispatch.Engine.Tick: an error between starting a run and spawning its wrapper ends the tick, but errors of the store elsewhere in it are not modelled, nor the parsing of the cap, how a project is judged, a review whose task is gone or the hourly worktree sweep, and a promoted task is one whose release and dependencies are already settled.
- VaultMove.Vault.MoveNote: does not compare names, kinds and types of attachments, because the source does not, nor the scrubbing of the log of the database.
- VaultSession.KeyStore.GetKey: times are integers.
- Output that arrives between attaching and the replay of the ring is sent twice by the source; no claim is made across a reattach.
- ReadCache.Memory.Invalidate: only for one home; without one the source raises the generation of homes it has seen before only, and no caller does that.
- Questions.Scanner.ScanRun: does not model how the visible text of a message is gathered and cut, the text of a question, changes of a run's session or messages that are taken out later.
- Reaper.PlanSweep: does not model run names with signs, blanks or underscores, which the source would read as numbers.
- ReaperSweep.Parachute: does not model the escapes inside a quoted name or changes to tracked files, which the source does not archive either.
- ReaperSweep.Sweeper.Sweep: a tree is as it was when the plan was made; files git ignores and files of a nested repository are not among the untracked ones of a tree, so a tree that holds only such files counts as clean, and they go with it without being archived, as in the source.
- Paging.PageIsTop: among equal times the two queries are taken to prefer the greater id, which the database leaves open.
- HTTP routes, gateways, push delivery, service installation and the whole browser side.
