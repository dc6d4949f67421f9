# Verified models of the publication library and the bounded JSON codec

This project models three files of `codenib` in Dafny and proves what they promise: the crash-safe
directory publication library (`_atomic_directory.py`), the workspace and receipt protocol built on it
(`_captured_directory.py`) and the bounded streaming JSON codec (`_bounded_json.py`).

`dafny verify dfyconfig.toml` checks everything. Each module is one file; the modules below are listed with
what they build on.

* **Settlement** (`Settlement`, `SettlementSafety`, `SettlementSteps`, `SettlementHandover`, `SettlementRuns`,
  `SettlementRecovery`). The two-party commit between the receipt owner's slot, the workspace and the native owner,
  as a step system: one receipt owner, any number of workspaces and of calls in flight, and in every step a called
  operation may raise before or after its effect. A call gets its own number, and its transfer is known by that
  number. One thread that makes several calls one after the other holds no lock between them, so its runs are among
  those of the model. The native owner is known only by the tests and calls that the workspace makes on it: its
  commit is idempotent, it refuses to abort once receipted, and the commit callback is reached only through a rename
  made by an open owner. The two retry loops of the reconciliation are modelled as any number of attempts, ended at
  any point.
* **Publication**. The no-replace renames of `perform_publication` and their rollback, over a partial map from names
  to trees, with injected faults; a name that is taken is always reported without effect, and no other process
  writes to the parent. What the validators and the commit callback are shown is recorded.
* **Ownership tokens** (`OwnershipTree`, `OwnershipListing`, `OwnershipSums`, `OwnershipScan`, `OwnershipCapture`,
  `OwnershipRebuild`, `ByteTrie`, `OwnershipToken`, `OwnershipValidation`, `OwnershipProjection`,
  `OwnershipBinding`, `OwnershipCommitment`, `OwnershipContents`). The recursive scan with its counters and lists,
  the flat rebuild with its byte trie, the validator and the subtree projection. The hash is a parameter, and
  nothing is assumed of it.
* **Reclaim**. The deletion cursor that is resumed after any interruption.
* **Cleanup** (`OrderedCleanup`, `OrderedErrors`, `OrderedRunner`, `LinkGraph`). The ordered cleanup runner over all
  scripts of what its callees do, and the search that decides whether an exception link graph is acyclic.
* **JSON** (`JsonText`, `JsonValue`, `JsonPrinter`, `JsonParser`, `JsonRoundTrip`, `JsonMeaning`, `JsonValidator`,
  `JsonLimits`, `JsonGrammar`, `JsonBrackets`, `JsonPretty`, `JsonComplexity`, `JsonUtf8`, `JsonFramer`,
  `JsonArray`, `JsonArrayShape`, `JsonArrayRoundTrip`). The canonical printer, a parser written from RFC 8259,
  sections 2 to 7, the whole-document validator, the tree check and the array framer.
* **Plans and snapshots** (`Plan`, `PlanBuilder`, `PlanDigest`, `PlanLimits`, `Snapshot`), and the **sorts**
  (`Sorting`, `KeySorting`).
* Shared: `Options`, `Orders`, `Permutations`, `Bytes`, `Encoding`, `Paths`.

A byte is modelled as the `char` with its code, so that byte strings have literals. Every method that follows a loop
or an object of the source is proved against a specification function or predicate, and the lemmas are about those.

One promise of the documentation is not kept by the code. The runner's docstring says that a close seen complete is
never called again, but a callable retry policy is asked before the completion that was seen is acted on
(`codenib/_atomic_directory.py:2033-2047`): if the policy raises, the action is retried, and if the next probe does
not say complete, it is called again. `OrderedCleanup.TrapSprings` gives such a run for any list of actions with
such a policy, and `OrderedCleanup.CompletionIsFinal` shows that it can happen exactly when some retryable action
brings a callable policy.

## Model

| member | source | states |
|---|---|---|
| SettlementRuns.SlotNeverTurnsBack | codenib/_captured_directory.py:1198-1382 | in every run the slot only goes empty to reserved, reserved to active, active to retained cleanup, reserved to aborting cleanup, cleanup to closed, or empty to closed, and stays on its transfer |
| SettlementRuns.SealNeverReturns | codenib/_captured_directory.py:3891-3918 | once past its seal a workspace never becomes publishable again |
| SettlementRuns.ActiveIsNeverAborted | codenib/_captured_directory.py:3944-3977 | in every run, a transfer that was ever active never has its native owner aborted, and ends receipted and closed |
| SettlementRuns.InactiveIsNeverReceipted | codenib/_captured_directory.py:4180-4243 | a workspace none of whose transfers was ever active is never receipted, and ends aborted |
| SettlementRuns.CallsSettleAsTheSlotDecided | codenib/_captured_directory.py:4129-4243 | when a publishing call has returned, or its reconciliation has ended after its workspace was handed to its transfer, the native owner is receipted exactly if the transfer was ever active, and aborted exactly if it was not, also when the slot was taken and the transfer never got into it; the workspace is then published or has been retired since, or it has failed or been closed |
| SettlementRuns.RunHands | codenib/_captured_directory.py:4215-4241 | once handed to a transfer a workspace never goes to another one, and its native owner stays open only as long as that transfer's call is unsettled |
| SettlementRuns.ReservedWasHeld | codenib/_captured_directory.py:3913-3917 | a transfer gets into the slot only after the workspace was handed to it |
| SettlementRuns.RecordIsTrue | codenib/_captured_directory.py:1271-1298 | what the state records of the slot's past is what the run did |
| SettlementRuns.NeverDeadlocked | codenib/_captured_directory.py:1133-1259 | over all interleavings no set of calls is ever such that each waits for a lock held by another of the set |
| SettlementRuns.WaitingEnds | codenib/_captured_directory.py:3916-3976 | no chain of waiting calls has more than three links, although publication takes workspace then owner and close takes owner then workspace |
| SettlementRuns.PhasesTellTheOutcome | codenib/_captured_directory.py:4215-4241 | in every state of every run a published workspace has a receipted owner, a failed one has none that is receipted, and a closed one has a closed owner |
| SettlementRuns.ConsumptionChangesNothing | codenib/_captured_directory.py:4289-4313 | consumption leaves every workspace and the slot as they were |
| SettlementRecovery.UndisturbedPublication | codenib/_captured_directory.py:3777-3825 | an undisturbed publication is a run, and ends active, published and receipted |
| SettlementRecovery.RecoveredPublication | codenib/_captured_directory.py:4215-4224 | a commit that raises once the slot is active is settled as published and receipted |
| SettlementRecovery.FailedPublication | codenib/_captured_directory.py:4225-4228 | a publication that raises before its commit is cancelled and settled as failed and aborted |
| SettlementRecovery.RefusedPublication | codenib/_captured_directory.py:4229-4241 | a publication that finds the slot taken ends closed and aborted |
| SettlementRecovery.UndisturbedConsumption | codenib/_captured_directory.py:4289-4313 | what has been published can be consumed |
| SettlementRecovery.UndisturbedClose | codenib/_captured_directory.py:4404-4464 | an undisturbed close of what has been published ends with the slot closed, the workspace closed and the owner retired |
| Publication.Publisher.Rename | codenib/_atomic_directory.py:3486-3493 | a rename is done, refused because the name is taken, or raises before or after its effect; every state of the parent is recorded |
| Publication.Publisher.Claim | codenib/_atomic_directory.py:4987-5031 | the destination goes to a name that was free; with one fault nothing has moved in the end |
| Publication.Publisher.Quarantine | codenib/_atomic_directory.py:10506-10549 | what is at the destination, if anything, goes to a name that was free |
| Publication.Publisher.RestoreExact | codenib/_atomic_directory.py:5079-5119 | the previous tree is back under the destination, or something raised |
| Publication.Publisher.RestoreClaimed | codenib/_atomic_directory.py:5122-5136 | the claimed tree goes back unread |
| Publication.Publisher.Isolate | codenib/_atomic_directory.py:10804-10906 | the previous tree is at its backup name, or a fault happened, and if only one then the destination is as it was |
| Publication.Publisher.Expose | codenib/_atomic_directory.py:10908-10941 | the staged tree is at the destination, or a fault happened, and if only one on the generic backend then the destination is as it was |
| Publication.Publisher.Confirm | codenib/_atomic_directory.py:10943-11056 | both trees are where they belong, or a fault happened, and if only one on the generic backend then the destination is as it was |
| Publication.Publisher.Publish | codenib/_atomic_directory.py:10704-11099 | whatever the faults, in every state of the parent, from the first on, each tree is under exactly one name, no other tree has moved and the destination holds the previous tree, the staged tree or nothing; with at most one fault on the generic backend, either the destination is as it was or, once the receipt part is reached, the new tree is active and the previous one at its backup; without a fault a publication whose expectations hold goes through; it is refused before anything moves when an expectation is not met; validators see the staged tree before anything moves, the previous one aside and the published one in place, and only then is the commit called; the native backend undoes nothing |
| OwnershipScan.Scanner.Reserve | codenib/_atomic_directory.py:6546-6558 | one more entry is charged, and refused exactly when a path or budget limit is passed |
| OwnershipScan.Scanner.ReserveNames | codenib/_atomic_directory.py:6676-6718 | whatever order a directory gives its names in, they are charged and come out in raw-byte order, unless a limit is passed by all of them together |
| OwnershipScan.Scanner.ScanDirectory | codenib/_atomic_directory.py:6642-6862 | the scan adds exactly the entries, records, identities and costs of the tree and gives its digest, or it refuses, exactly when a limit is passed or an entry is on another device |
| OwnershipCapture.CaptureTree | codenib/_atomic_directory.py:6881-6956 | the captured token is the specified one, and refused are exactly the trees that pass a limit or leave the device |
| OwnershipContents.CaptureTellsTheTree | codenib/_atomic_directory.py:6881-6956 | a captured token lists just the entries of the tree with their kinds and identities, and for each file just its permission bits, size and hash, in the order of the paths; it names the root it was captured from |
| OwnershipContents.CaptureCountsBytes | codenib/_atomic_directory.py:6546-6566 | the byte count of a token is the sum of the sizes of its files |
| OwnershipContents.CaptureCountsMetadata | codenib/_atomic_directory.py:6546-6566 | the metadata count of a token is the length of the messages that would be hashed if every entry were a file |
| OwnershipContents.ModesTellKinds | codenib/_atomic_directory.py:7112-7145 | which identities are valid: bounded fields, the file-type bits of the kind, no reparse point, no size for a directory, one device |
| OwnershipListing.ListsTheTree | codenib/_atomic_directory.py:6736-6857 | the scan reports exactly the paths of the tree |
| OwnershipListing.Once | codenib/_atomic_directory.py:6736-6857 | nothing is reported twice |
| OwnershipRebuild.RebuildAgreesWithScan | codenib/_atomic_directory.py:7235-7262 | the digest rebuilt from the flat entries of a tree is the digest of the recursive scan |
| OwnershipRebuild.RebuildOwnershipDigest | codenib/_atomic_directory.py:7166-7262 | the rebuild gives the flat digest, or refuses exactly when an entry has no directory to stand in |
| ByteTrie.InsertAdds | codenib/_atomic_directory.py:7190-7212 | a name is refused exactly when it is there already; otherwise just it is added |
| ByteTrie.RawByteOrder | codenib/_atomic_directory.py:7190-7233 | the names come out in strictly increasing raw-byte order, unless one is repeated |
| OwnershipToken.CaptureIsValidated | codenib/_atomic_directory.py:7265-7497 | every token captured within the limits passes validation |
| OwnershipToken.ValidatedIffCaptured | codenib/_atomic_directory.py:7265-7497 | the tokens that pass validation are exactly the captures of some tree within the limits |
| OwnershipValidation.ValidateDirectoryOwnershipToken | codenib/_atomic_directory.py:7265-7497 | the validator accepts exactly the captures of some tree within the limits |
| OwnershipValidation.CheckLists | codenib/_atomic_directory.py:7300-7480 | the loops accept exactly the tokens whose redundant fields agree, and give their entries and records |
| OwnershipProjection.ProjectionIsCapture | codenib/_atomic_directory.py:7540-7600 | stripping the lists of a captured token gives, in every field, the token captured from the subtree |
| OwnershipProjection.ProjectDirectoryOwnershipSubtree | codenib/_atomic_directory.py:7500-7613 | projecting a captured token to a directory gives the capture of that directory, and nothing where there is none or the token is not a capture |
| OwnershipProjection.ProjectionsCompose | codenib/_atomic_directory.py:7500-7613 | projecting to a directory and then below it is projecting to the joined path |
| OwnershipProjection.SubtreeFits | codenib/_atomic_directory.py:7500-7613 | a subtree of a tree within the limits is within the limits |
| OwnershipBinding.DigestBindsContent | codenib/_atomic_directory.py:6803-6857 | two trees with one digest agree on every name, kind, mode modulo 4096, size and file hash, or two different hashed messages with the same hash are given |
| OwnershipCommitment.TokenDigestBindsContent | codenib/_atomic_directory.py:6803-6857 | two captured trees whose tokens have one digest have the same content, or two different hashed messages with the same hash are given |
| OwnershipCommitment.CapturedIsEncodable | codenib/_atomic_directory.py:6532-6534 | the scanner's limits make every path and size of a captured tree fit its fixed-width field |
| OwnershipBinding.ContentDecidesDigest | codenib/_atomic_directory.py:6803-6857 | trees with the same content have the same digest |
| OwnershipBinding.FileMessageTells | codenib/_atomic_directory.py:6532-6534 | length prefixes and fixed widths make the message of a file unambiguous |
| OwnershipBinding.TagsDiffer | codenib/_atomic_directory.py:6803-6857 | the messages of a file and of a directory never agree |
| OwnershipBinding.KnownFileMessage | codenib/_atomic_directory.py:6532-6534 | the message of a short file, byte for byte |
| OwnershipBinding.KnownEmptyDigest | codenib/_atomic_directory.py:6803-6857 | what is hashed for an empty directory, byte for byte |
| Reclaim.RefusedForHardLinks | codenib/_atomic_directory.py:8248-8276 | exactly a tree that holds a file whose link count is not one is refused; of any other tree everything is listed |
| Reclaim.ReclaimOrder | codenib/_atomic_directory.py:8248-8276 | the removal order holds everything once, and every directory after what is below it |
| Reclaim.CapturedIsListed | codenib/_atomic_directory.py:9746-9808 | a captured tree in removal order is a valid start of the cursor |
| Reclaim.Reclaimer.OpenParent | codenib/_atomic_directory.py:9104-9155 | every directory on the way to the entry at the cursor is still the captured one |
| Reclaim.Reclaimer.Remove | codenib/_atomic_directory.py:9399-9436 | a removal, which asks for an empty directory, takes effect or raises before or after its effect |
| Reclaim.Reclaimer.ReclaimEntry | codenib/_atomic_directory.py:9339-9439 | one call keeps entries before the cursor gone and those after it as captured, moves on only when the parent is synchronised, and without a fault makes one phase of progress |
| Reclaim.Reclaimer.ReclaimRoot | codenib/_atomic_directory.py:9442-9511 | the root is removed only when empty, and without a fault the root phase moves on |
| Reclaim.Reclaimer.Resume | codenib/_atomic_directory.py:9810-9832 | from any state left by an interruption it keeps the invariant, never moves the cursor back, completes unless something raises, and on completion every entry and the root are gone and synchronised |
| OrderedCleanup.TurnProgresses | codenib/_atomic_directory.py:2012-2066 | every turn of the loop moves to the next action or spends one of its retries: the run terminates |
| OrderedCleanup.RunEnds | codenib/_atomic_directory.py:2110-2129 | every run passes every action before it ends |
| OrderedCleanup.RunCounts | codenib/_atomic_directory.py:1978-2009 | plain actions run exactly once, retryable ones at most nine times |
| OrderedCleanup.RunsInOrder | codenib/_atomic_directory.py:2012-2066 | actions are called, probed and judged in order |
| OrderedCleanup.FirstErrorWins | codenib/_atomic_directory.py:1845-1867 | errors are kept in the order they come, so a primary error once set is never replaced |
| OrderedErrors.EndsWithoutError | codenib/_atomic_directory.py:1845-2078 | a run keeps no error besides the one it was given exactly when nothing it called raised and every attempt was seen complete just after; then every action that can be seen complete has been |
| OrderedErrors.RetryLeavesError | codenib/_atomic_directory.py:2052-2066 | an attempt that completes only after a retry leaves an error, although nothing raised and everything was seen complete in the end |
| OrderedErrors.PlainErrorsAreKept | codenib/_atomic_directory.py:1978-1990 | plain actions are called once each, in order, and the errors they raise are kept in order after the primary one |
| OrderedErrors.NineAttempts | codenib/_atomic_directory.py:1947-1975 | an action that is always cancelled and never complete is called nine times, and then looked at once more; the run keeps the first cancellation and that the retries are spent |
| OrderedErrors.OrdinaryErrorsAreNotRetried | codenib/_atomic_directory.py:2035-2066 | an action is called again only because a callable policy or a cancellation asks for it |
| OrderedErrors.OrdinaryErrorIsKept | codenib/_atomic_directory.py:2067-2078 | the ordinary error of an action that does not complete is kept, and so is that it is not complete |
| OrderedCleanup.TrapSprings | codenib/_atomic_directory.py:2033-2047 | with a callable retry policy some behaviour of the callees makes an action run again after it was seen complete |
| OrderedCleanup.CompletionIsFinal | codenib/_atomic_directory.py:2019-2078 | no behaviour of the callees makes an action run again after it was seen complete, exactly when no retryable action has a callable policy |
| OrderedRunner.Runner.TryRetryable | codenib/_atomic_directory.py:2028-2066 | one turn for an action with a completion probe is the specified one, also when the policy raises |
| OrderedRunner.Runner.GiveUp | codenib/_atomic_directory.py:1947-1975 | the last retry spent, the action is probed once more and left behind |
| OrderedRunner.Runner.RunAll | codenib/_atomic_directory.py:2081-2129 | the passes and the trampoline give the specified run |
| LinkGraph.IsAcyclic | codenib/_atomic_directory.py:1566-1598 | true exactly when the graph reachable from the candidate excludes the forbidden node, has no cycle and has at most 64 nodes |
| LinkGraph.EnterAgrees | codenib/_atomic_directory.py:1589-1597 | entering a node keeps the visiting set equal to the nodes whose leave mark is on the stack, each linked from the mark below it |
| LinkGraph.LeaveAgrees | codenib/_atomic_directory.py:1581-1584 | when a node is left everything it links to has been completed |
| LinkGraph.MetAgain | codenib/_atomic_directory.py:1584-1585 | a node met while it is being visited is on a reachable cycle |
| JsonValidator.ValidateBoundedJsonStream | codenib/_bounded_json.py:147-398 | the verdict is that of the one-byte machine on the concatenated bytes, however the reader splits them |
| JsonValidator.Validator.ReadBlock | codenib/_bounded_json.py:265-391 | the loop over a block, with its skipped runs, refines the one-byte machine |
| JsonValidator.SkipRun | codenib/_bounded_json.py:277-289 | skipping to the next quote or backslash is taking the bytes between one by one |
| JsonLimits.AcceptsExactlyWithinLimits | codenib/_bounded_json.py:147-398 | the validator accepts a canonical printing exactly when bytes, nodes, nodes plus keys, depth and escaped key, string and atom lengths are within the limits |
| JsonGrammar.AcceptsExactlyTheGrammar | codenib/_bounded_json.py:147-398 | any text is accepted exactly when it is not too long, a grammar read by recursive descent reads it as one value with white space around it, and what the value costs is within the limits |
| JsonBrackets.AcceptedTextMatches | codenib/_bounded_json.py:340-394 | in an accepted text every bracket outside strings and atoms is closed by its own kind, and every string is closed |
| JsonBrackets.CutPrintingIsRefused | codenib/_bounded_json.py:393-398 | no proper prefix of the printing of a list or dictionary is accepted |
| JsonBrackets.AtomsMayHoldBrackets | codenib/_bounded_json.py:310-318 | brackets inside an atom need not match, since only the decoder looks inside atoms |
| JsonComplexity.ValidateJsonComplexity | codenib/_bounded_json.py:115-144 | the iterative tree check accepts exactly by the node count and depth that the validator counts, and the longest decoded key |
| JsonUtf8.LengthIsOfEncoding | codenib/_bounded_json.py:133-138 | the bytes counted for a key are those of its UTF-8 encoding, which decodes to the key |
| JsonUtf8.LongestKeyIsLongest | codenib/_bounded_json.py:133-142 | the tree check goes by the longest key at any depth, in bytes of its encoding |
| JsonComplexity.AcceptedTextHasAcceptedTree | codenib/_bounded_json.py:115-144 | a value whose printing the validator accepts passes the tree check under the same limits |
| JsonFramer.Framer.FrameBlock | codenib/_bounded_json.py:532-625 | framing within one block refines the one-byte framer |
| JsonArray.ByteStream.NextByte | codenib/_bounded_json.py:433-440 | the next byte is the first of what is still to be read, over any split into blocks |
| JsonArray.FrameJsonElement | codenib/_bounded_json.py:476-626 | the framed element, its terminator and what is left are those of the one-byte framer on the concatenated bytes |
| JsonArray.IterBoundedJsonArray | codenib/_bounded_json.py:644-746 | verdict and elements of an accepted array depend only on the concatenated bytes |
| JsonArrayShape.AcceptedIsArray | codenib/_bounded_json.py:644-746 | an accepted array is the elements given out, in order, with its brackets, commas between them and white space, and nothing else; each element decodes and is within the limit |
| JsonArrayRoundTrip.StepMatches | codenib/_bounded_json.py:532-620 | the framer's machine takes the same steps as the validator's on text the validator accepts |
| JsonArrayRoundTrip.FramingUndoesArrayPrinting | codenib/_bounded_json.py:812-830 | over a canonical array the framer yields exactly the canonical encodings of its elements if there are not too many, each decodes and each is within the limits on raw length, nodes, tokens, depth and atoms, the last one charged with its line end; otherwise the array is refused |
| JsonArrayRoundTrip.ArrayRoundTrip | codenib/_bounded_json.py:644-746 | framing and decoding a canonical array gives every value back, in order, exactly when item count, elements and longest keys are within the limits |
| JsonArrayRoundTrip.ReadCanonicalArray | codenib/_bounded_json.py:644-746 | however a canonical array is split into blocks, reading it gives every value back, in order, exactly when item count, elements and longest keys are within the limits, and refuses it otherwise |
| JsonPrinter.PiecesAreTheWhole | codenib/_bounded_json.py:753-760 | escaping a string in pieces of 64Ki characters is escaping it whole |
| JsonPrinter.StringChunksAreQuoted | codenib/_bounded_json.py:753-760 | the chunks of a string join to the quoted string |
| JsonPretty.PrintIsPretty | codenib/_bounded_json.py:749-805 | a canonical printing is what `json.dumps` with an indent of two and sorted keys says, defined by moving what a container holds two spaces to the right |
| JsonPretty.EscapeIsShortest | codenib/_bounded_json.py:753-760 | a character is printed in printable ASCII, and no shorter printable text reads as it |
| JsonRoundTrip.PrintRoundTrip | codenib/_bounded_json.py:763-805 | a parser by RFC 8259 reads a printed value back and stops just after it |
| JsonMeaning.ParsingUndoesPrinting | codenib/_bounded_json.py:763-809 | parsing a canonical document gives a value that means the same |
| JsonMeaning.PrintingSaysTheMeaning | codenib/_bounded_json.py:763-805 | two values print alike exactly when they are equal, insertion order aside |
| JsonMeaning.PrintOfCanon | codenib/_bounded_json.py:780-805 | printing does not see the order in which entries were added |
| Plan.AcceptedIsClosed | codenib/_captured_directory.py:540-597 | an accepted plan is closed under directory ancestors, and no file is an ancestor |
| Plan.AcceptedIsSafe | codenib/_captured_directory.py:410-425 | nobody but the owner may write to anything an accepted plan creates, the owner may use all of it, its subject is a lowercase hex digest, no path holds a backslash, and no two paths could be confused |
| Plan.ModeBits | codenib/_captured_directory.py:410-425 | which permission bits a valid mode has, one by one |
| Plan.AcceptedPermutes | codenib/_captured_directory.py:493-597 | whether a plan is accepted does not depend on the order of its lists |
| Plan.CanonicalForgetsOrder | codenib/_captured_directory.py:599-610 | reordering the lists of an accepted plan does not change its canonical form |
| PlanBuilder.MakePlan | codenib/_captured_directory.py:493-684 | the constructor accepts exactly the specified plans and gives their canonical form and digest |
| PlanBuilder.CheckDirectories | codenib/_captured_directory.py:508-538 | the loop over the directories accepts exactly valid ones whose portable names differ |
| PlanBuilder.CheckFiles | codenib/_captured_directory.py:551-597 | the loop over the file slots accepts exactly valid ones that are new, placed and within the total |
| PlanBuilder.CheckBudget | codenib/_atomic_directory.py:6561-6566 | the planned paths are refused exactly when the scanner's entry or metadata limit is passed |
| PlanDigest.DigestForgetsOrder | codenib/_captured_directory.py:636-684 | reordering the lists of an accepted plan does not change its digest |
| PlanDigest.FrameTells | codenib/_captured_directory.py:446-450 | a framed domain and payload followed by anything is unambiguous |
| PlanDigest.EncodingTells | codenib/_captured_directory.py:638-679 | equal framed encodings mean equal plans |
| PlanDigest.DigestBindsPlan | codenib/_captured_directory.py:638-684 | accepted plans with one digest have one canonical form, or two different encodings with the same hash are given |
| PlanLimits.PathsWithinLimits | codenib/_atomic_directory.py:6537-6543 | every path of a tree that realises an accepted plan is within the scanner's depth and length limits |
| PlanLimits.RealisedIsWithinBudget | codenib/_atomic_directory.py:6546-6566 | the entries, metadata and bytes of such a tree are within the scanner's budget |
| PlanLimits.CaptureRealised | codenib/_atomic_directory.py:6881-6956 | an observed tree on one device that realises an accepted plan is captured, passing none of the scanner's depth, path, entry, metadata and byte limits |
| Snapshot.AuthenticatedSnapshot.Read | codenib/_captured_directory.py:1473-1501 | a read over the chunks gives the next slice of the content, of the length asked for or what is left |
| Snapshot.AuthenticatedSnapshot.Rewind | codenib/_captured_directory.py:1526-1539 | rewinding undoes exactly the last bytes read |
| Snapshot.AuthenticatedSnapshot.ReadLine | codenib/_captured_directory.py:1503-1524 | the line is the only one that ends just after the first newline, at the limit or with the content, and the cursor is just after it |
| Snapshot.Reader.Read | codenib/_captured_directory.py:1570-1582 | what has been delivered is always the content up to the cursor, at most 8 MiB more with each call, and the remaining count is what is left |
| Snapshot.Reader.ReadLine | codenib/_captured_directory.py:1584-1596 | the same for lines |
| Sorting.StableSortIsStable | codenib/_atomic_directory.py:98-146 | the specified sort is in order, a permutation, and keeps items with equal keys in their order |
| Sorting.MergeOfSorted | codenib/_atomic_directory.py:122-138 | merging two stably sorted runs sorts the two together stably |
| Sorting.InterruptibleSort | codenib/_captured_directory.py:115-169 | for any length the runs and pairwise merges give the stable sort, and nothing is polled after the last item is produced |
| Sorting.ReversedIsPreorder | codenib/_atomic_directory.py:98-146 | the reversed order is again an order of keys, so the reverse variant is covered |
| KeySorting.SortForgetsOrder | codenib/_captured_directory.py:599-610 | where no two keys agree, sorting forgets the order of the input |

## Left out

- Settlement: publication, close, consumption and observation are steps on values, not methods of classes, because they interleave; reentrant calls by one thread, which the code rejects, and the PID-boundary branches are not modelled.
- Settlement: a workspace without a native owner, `bind_replacement_source`, the exchange itself in a replacement, and the steps before a workspace is sealed are not modelled.
- Settlement: the flag that only tells a first close attempt from a later one, and error notes, are not modelled.
- Publication: the native backend is only its refusal of an existing destination and its lack of rollback; descriptor handling, fsync and the platform checks are not modelled.
- Publication: trees are unchanging; a validator is a call that can only raise; every draw of only taken names counts as a fault of the draw.
- Publication.Publisher.constructor: asks for different stage and destination names and for different trees to be told apart; the source refuses equal names before anything else.
- OwnershipScan.Scanner.ScanDirectory: the tree does not change during the scan, so the checks that detect a change are not modelled; links, special files, mounts, the entry policy and the required root marker are not modelled.
- OwnershipCapture.CaptureTree: asks for metadata as an operating system gives it, and for names that are names.
- OwnershipToken: paths are raw bytes, and lists are ordered by the raw bytes of the joined path; Python orders them as decoded strings. Tuples are compared by path alone, since paths differ.
- ByteTrie: the trie is a value, rebuilt on insertion, not nested dictionaries on the heap.
- OwnershipProjection: projection to the root itself is refused here as in the source; exactness checks of argument types are not modelled.
- Reclaim: opening and closing descriptors, quarantining the root and attaching owners to errors are not modelled; a call that only reads can only raise.
- OrderedCleanup: faults come from actions, probes and retry policies only, not from between two bytecodes; notes on secondary errors are reduced to the list of errors kept.
- LinkGraph: exceptions are numbers; links are read without failing.
- JsonValue: floats, the exact grammar of numbers beyond integers, duplicate keys and lone surrogates are not modelled.
- JsonPrinter: Python's own limit on the digits of an integer turned to text or back is not modelled: printing and parsing hold for integers of any size.
- JsonValidator: error messages are not modelled, since they depend on block boundaries; a reader returns byte strings.
- JsonFramer: the check that a string exceeds the element limit is subsumed by the limit of the payload.
- JsonArray: the decoder is a parameter.
- Plan: case folding is a parameter; paths are raw bytes; cancellation checks inside the loops of the constructor are not modelled, those of the sort are.
- Snapshot: only the chunk-backed snapshot is modelled, not the descriptor-backed one.
- The Windows backend, the native extension, the cancellation-safe lock beyond mutual exclusion, process and fork guards, and everything in the repository outside the three files are not part of this model.
