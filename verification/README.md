# Agent Message Queue: verified model

A Dafny model of the parts of Agent Message Queue (`amq`, `amq-bridge` and the ACP
companion) whose correctness is a matter of whole runs: crash-safe protocols over
files, competing consumers, multi-file commits, reply routing, and a few scanners and
printers.  `dafny verify dfyconfig.toml` checks everything.

## What is modelled

| files | part of the system |
|---|---|
| `BridgeEnvelope`, `BridgeRead` | the bridge wire unit: handles, aliases, transfer ids, file names, validation, signed bytes; how a spool file becomes an envelope |
| `BridgeSource` | any number of Enqueue calls and a PushOnce as one transition system, one system call or request per step, interleaved, with process stops and power failures; files written in place |
| `BridgeSafety`, `BridgeReceipts`, `BridgeRetry`, `BridgeOwn` | what every run of it keeps: messages, receipts, message and sidecar together, the sender's own transfer |
| `BridgeRuns`, `BridgeLimits` | stretches of runs, and the runs that break a claim where its condition fails |
| `BridgeEnqueue`, `BridgePush`, `BridgePoll`, `BridgeApply` | Enqueue, PushOnce, PollOnce, ApplyEnvelope and the receipt writer, over directories changed in place |
| `BridgeSystem`, `BridgeEndToEnd`, `BridgeAcks`, `BridgeChecks` | both hosts and an untrusted rendezvous; runs that end with an acknowledgement; what the destination checks |
| `Maildir`, `MaildirRace`, `MaildirPlaces`, `MaildirReceipts` | claim, drain, read and the dead-letter move with all their outcomes; any number of consumers interleaved, where a message can be meanwhile, and what their receipts say |
| `Dlq`, `DlqRetry` | purge, retry --all, list; one retry step by step |
| `Roster`, `SetupGitignore`, `Setup`, `SetupResult` | the setup plan, its preview and its ordered commit; what a setup leaves |
| `Routing`, `Conversation`, `RouteExplain`, `Shell` | send, reply and route planning; the explained command and shell quoting |
| `StrictJson`, `StrictPath`, `Acp`, `AcpAnswers`, `Walks`, `Semver` | the strict JSON scanner and the paths it prints, the ACP request loop and journal, the Git-bounded walks, version negotiation |
| `Text`, `Runs` | strings as Go sees them; runs of a transition system |

## Hypotheses

- SHA-256 is any function into 64 lower-case hex digits; a signature verifies exactly when the key's holder signed those bytes; JSON encoding is any codec that reads back what it wrote.
- Letter case is that of ASCII, and strings are sequences of code points.
- A rename, link or removal happens whole or not at all. Spool messages, sidecars, receipts and journal records are written in place: in the bridge model a reader may see, and a stop may leave, any prefix of a message or sidecar, and a torn receipt.
- After a power failure a directory entry shows its live or its last synced state, or is gone if the two differ, content that was not synced may be anything, and a receipt that was not synced may be gone or torn.
- One courier process works on a spool at a time; nothing keeps it apart from Enqueue, which may run in any number of processes.
- The theorems about a call speak of that call and its name alone: whatever happens to other messages is allowed. Conditions are on single steps: `NothingLost` excludes exactly the step that unlinks the only copy of the message, which cannot happen when the name is given to one call only (`NothingLostFresh`). `ReceiptBeforeRemoval` needs that, and that no receipt is taken up that was never synced. `OwnReceiptBeforeRemoval` needs besides that the courier does not read the message while its sidecar is missing. `RetriesKeepTransfer` needs the name for one call only and excludes a power failure in one window. All other power failures, stops and interleavings are allowed.
- `AckedCarriesExactly` and `AckedCarriesEnqueued` need fields without newlines (`MarkedMessageIdIsAmbiguous`).
- The idempotence of ApplyEnvelope is visible only while the file is in inbox/new; `BridgeApply` has no consumer, `BridgeSystem` has one.
- Within the envelope lock, purge is not disturbed; between locked sections anything may happen to the directory.
- The consumers' claim is the POSIX rename that never replaces a file.
- Roots are base roots and sessions directly below them, each classified as what it is.

## Where the code does not meet a claim

Each has a lemma with the exact condition or a concrete run.

- Enqueue and PushOnce take no common lock. A message read before its sidecar exists goes to the default destination, and one read while it is written is cut short; Enqueue then succeeds, and the transfer its sender asked for was never made (`EarlyReadMisdirects`, `EarlyReadTruncates`; exactly when: `ReceiptIsOwnExactly`, `AckedCarriesExactly`).
- A failing Enqueue removes its file by name, also when that name now belongs to another call, whose message is then lost (`ReuseLoses`; exactly when: `StepKeepsExactly`).
- A receipt whose directory could not be synced is trusted without another sync, and a power failure can then leave a removed message without any receipt (`UnsyncedReceiptIsLost`, and from any such state `UnsyncedReuseLoses`; exactly when: `StepKeepsReceiptsExactly`, `ReceiptDropsExactly`). The destination receipt is trusted and lost in the same way after the acknowledgement (`TrustedReceiptIsLost`, `TrustLosesReceipt`; exactly when: `DestReceiptsKeptExactly`, `DestReceiptDropsExactly`).
- A push receipt is no proof of delivery, and a receipt torn by a crash stops every later PushOnce at that item (`PushReceiptIsNoCommit`, `Courier.PushOnce` through `Unopposed`).
- (source_host, transfer_id) is not a key for ids not made by a courier (`TransferKeyIsAmbiguous`), and signed bytes are ambiguous if a message id may hold a newline (`MarkedMessageIdIsAmbiguous`).
- A power failure may keep a message and lose its sidecar (`PowerLossCanDropSidecar`; exactly when: `SplitsExactlyInWindow`).
- A reader that loses the race fails, unlike a drain (`ReaderFailsWhereDrainSkips`).
- Every staged copy left behind by a failed publication can be delivered once more (`LeftoversDeliverAgain`; never more than that: `DeliveredAtMostOnce`).
- A second setup refuses an explicit root given with surrounding white space (`RootAgain`), appends to .gitignore again for a root with a newline or leading white space (`SecondTimeUnchanged`), and rewrites an unordered roster (`SecondRunWritesNothing`).
- A setup stopped when only the mailboxes of the reserved human handle were still to be made leaves them missing for good, since no later run looks for them (`HumanMailboxStaysMissing`; exactly when: `RerunConverges`).
- A reply to a session whose name starts with a dash fails (`AnswerableIffSessionIsHandle`), and so does an explained command that mirrors such a session (`ExplainIsFixpoint`).
- The display command drops empty arguments (`DisplayIsExact`).
- Version numbers past the largest int compare as that int: versions that differ only there tie (`TiesExactly`), and the order can even be inverted (`OrderInverts`; exactly when: `ParsedCompareExactly`). The contract offered is far below the limit, so every requirement is judged exactly (`RequirementMeans`, `ContractIsSmall`).
- A request with a null id is carried out and gets no answer, although sections 4 and 4.1 of JSON-RPC 2.0 make only a request without an id member a notification; a line longer than the buffer ends Serve with an error and no answer (`AnswerOwed`, `Server.Serve`).
- The path printed with a strict JSON error does not tell a nested key from a key with a dot or bracket in it (`KeySwallows`; exactly when: `SecondReadingExactly`).
- With an invalid AM_ME resolveEnvConfigWithSource refuses where resolveDiscoveredBaseRoot succeeds (`ResolveEnv`).

## Model

| member | source | states |
|---|---|---|
| `BridgeEnvelope.AliasRoundTrip` | internal/bridge/envelope.go:110-122 | an alias is accepted as (host, agent) if and only if both are valid handles and the alias is `host/agent` |
| `BridgeEnvelope.TransferIdIsCourierId` | cmd/amq-bridge/courier.go:589-604 | every id the courier derives is `xfer-` and 32 lower-case hex digits, for any digest function |
| `BridgeEnvelope.TransferFilenameCollision` | internal/bridge/envelope.go:124-126 | exactly which two (source host, transfer id) pairs share one inbox file name |
| `BridgeEnvelope.TransferKeyIsAmbiguous` | internal/bridge/envelope.go:124-136 | the pair is not a key in general: two valid pairs with one file name |
| `BridgeEnvelope.CourierFilenamesInjective` | internal/bridge/envelope.go:124-126 | on courier-made ids the file name determines both host and id |
| `BridgeEnvelope.ReceiptFilenameInjective` | cmd/amq-bridge/courier.go:832-834 | a receipt file name determines transfer and stage, whatever the id contains |
| `BridgeEnvelope.CanonicalBytesInjective` | internal/bridge/auth.go:57-70 | validated envelopes with one-line fields and equal signed bytes agree on every signed field, the digest up to letter case |
| `BridgeEnvelope.SomeEnvelopeIsValid` | internal/bridge/envelope.go:59-108 | envelopes that meet every check exist, for any handle, payload and digest function |
| `BridgeEnvelope.MarkedMessageIdIsAmbiguous` | internal/bridge/envelope.go:59-108 | without one-line fields: every validated envelope whose message id holds a thread marker shares its signed bytes with a different validated envelope |
| `BridgeSafety.StepKeepsExactly` | cmd/amq-bridge/courier.go:836-868 | a step of any Enqueue, of PushOnce, a stop or a power failure keeps a message safe, while its call runs and after it has succeeded, if and only if it does not unlink its only copy |
| `BridgeSafety.NothingLost` | internal/bridge/enqueue.go:66-92 | over any interleaving of Enqueue calls with PushOnce, stops and power failures included, a message whose Enqueue succeeded is in the spool or the archive with its bytes, live and on disk, as long as no such step happens |
| `BridgeSafety.RiskyLoses` | internal/bridge/enqueue.go:71-88 | and such a step does lose it |
| `BridgeSafety.NothingLostFresh` | internal/bridge/enqueue.go:66-92 | nothing is lost, without further condition, when the name is used for one call only |
| `BridgeReceipts.ReceiptDropsExactly` | internal/fsq/delivery_root.go:635-651 | a power failure can drop or tear a visible receipt if and only if its directory entry was not synced |
| `BridgeReceipts.ReceiptsAreEarned` | cmd/amq-bridge/courier.go:396-415 | in every run, every complete transport receipt was earned by posting an envelope of its id and digest |
| `BridgeReceipts.StepKeepsReceiptsExactly` | cmd/amq-bridge/courier.go:395-423 | a step keeps removals covered by receipts on disk if and only if it takes up no receipt that was never synced |
| `BridgeReceipts.ReceiptBeforeRemoval` | cmd/amq-bridge/courier.go:395-423 | across power failures a message is missing from the spool only because the courier removed it for something it read under that name, whose transport_accepted receipt is on disk, and an envelope with that id and digest was posted |
| `BridgeReceipts.ContradictionBlocks` | cmd/amq-bridge/courier.go:396-418 | a receipt for something else, or other bytes in the archive, stops an item: no step posts, moves or removes it |
| `BridgeOwn.OwnReceiptBeforeRemoval` | cmd/amq-bridge/courier.go:606-630 | when the courier never read the message before its sidecar was written, that receipt is the one of the transfer its sender asked for, with power failures anywhere |
| `BridgeOwn.ReceiptIsOwnExactly` | cmd/amq-bridge/courier.go:606-630 | in any case it is the sender's own if and only if the courier had read the whole message, and a sidecar, or none, naming the sender's destination |
| `BridgeRetry.RetriesKeepTransfer` | cmd/amq-bridge/courier.go:858-866 | while a message stays in the spool its sidecar stays too, so every retry makes the envelope its Enqueue asked for, unless a power failure strikes in the window |
| `BridgeRetry.SplitsExactlyInWindow` | cmd/amq-bridge/courier.go:858-866 | a power failure can leave the message without its sidecar if and only if the message is on disk and the sidecar already removed |
| `BridgeRetry.OrderlyReadsAreOwn` | cmd/amq-bridge/courier.go:513-587 | whatever the courier reads only after Enqueue has returned is the sender's own transfer |
| `BridgeLimits.EarlyReadMisdirects` | cmd/amq-bridge/courier.go:606-610 | a run in which the courier reads a published message without its sidecar, posts and removes it, and Enqueue then succeeds: its own transfer was neither posted nor receipted |
| `BridgeLimits.EarlyReadTruncates` | internal/bridge/enqueue.go:66-76 | the same with any prefix of the message that parses |
| `BridgeLimits.ReuseLoses` | internal/bridge/enqueue.go:85-88 | a run in which a failing Enqueue removes the only copy of another call's enqueued message of the same name |
| `BridgeLimits.PowerLossCanDropSidecar` | cmd/amq-bridge/courier.go:858-866 | a run into the window: the retry after the power failure goes to the default destination |
| `BridgeLimits.UnsyncedReceiptIsLost` | cmd/amq-bridge/courier.go:396-415 | a run in which an unsynced receipt is taken up, the message removed and the receipt lost |
| `BridgeLimits.UnsyncedReuseLoses` | cmd/amq-bridge/courier.go:396-415 | from any state in which an unsynced receipt is taken up for a message that can be archived, the message can end up removed without a receipt |
| `BridgeEnqueue.Sender.Create` | internal/bridge/enqueue.go:66-70 | exclusive creation of the message file |
| `BridgeEnqueue.Sender.WriteMessage` | internal/bridge/enqueue.go:71-84 | the bytes in place, then the sync; a failure leaves a part |
| `BridgeEnqueue.Sender.CreateSidecar` | internal/bridge/enqueue.go:101-105 | exclusive creation of the sidecar |
| `BridgeEnqueue.Sender.FillSidecar` | internal/bridge/enqueue.go:106-120 | its line in place, then the sync; a failure leaves a part |
| `BridgeEnqueue.Sender.WriteSidecar` | internal/bridge/enqueue.go:100-121 | the sidecar created, written in place and synced |
| `BridgeEnqueue.Sender.CleanUp` | internal/bridge/enqueue.go:71-88 | removal by name of what was created |
| `BridgeEnqueue.Sender.Finish` | internal/bridge/enqueue.go:89-92 | the directory sync that makes message and sidecar durable |
| `BridgeEnqueue.Sender.Bind` | internal/bridge/enqueue.go:85-92 | from the published message on: success exactly when no sidecar is in the way and nothing fails |
| `BridgeEnqueue.Sender.Publish` | internal/bridge/enqueue.go:66-84 | up to the published message |
| `BridgeEnqueue.Sender.Run` | internal/bridge/enqueue.go:20-93 | every operation is a step of the protocol; undisturbed it succeeds exactly when the message is admitted, no sidecar is in the way and nothing fails, and then both files are complete and on disk; a failure leaves the spool as it was unless only the last sync failed |
| `BridgeRead.SidecarRoundTrip` | internal/bridge/enqueue.go:100-121 | the alias read from a sidecar is the one written into it |
| `BridgeRead.OwnEnvelope` | cmd/amq-bridge/courier.go:513-604 | the envelope of an accepted message is valid, addressed to the alias its sender named, and has every field from the configuration, the header and the bytes |
| `BridgeRead.ReadExactly` | cmd/amq-bridge/courier.go:529-630 | a spool file is read as an envelope if and only if its name, header, digest, identity and destination pass, and then version, id, source host and handle, alias, message and thread ids, payload, digest, key generation and signature are exactly these |
| `BridgeRead.AcceptsExactly` | internal/bridge/enqueue.go:20-55 | Enqueue accepts exactly the messages the courier can send to that alias |
| `BridgeRead.OwnExactly` | cmd/amq-bridge/courier.go:571-630 | what the courier makes of a file is the sender's own transfer if and only if it read the message whole and a destination equal to the sender's |
| `BridgePush.NextAllowed` | cmd/amq-bridge/courier.go:395-418 | whether the next item can pass is decided by the state PushOnce started from |
| `BridgePush.Courier.PostItem` | cmd/amq-bridge/courier.go:396-408 | reuses a matching receipt, otherwise posts; a receipt for anything else stops the run |
| `BridgePush.Courier.FailToRecord` | internal/fsq/delivery_root.go:576-592 | a receipt that could not be written and synced leaves nothing, a torn file, or a whole one that is not synced |
| `BridgePush.Courier.RecordAccepted` | cmd/amq-bridge/courier.go:409-415 | writes the write-once receipt for what was accepted and syncs its directory, or fails in one of these ways |
| `BridgePush.Courier.Accept` | cmd/amq-bridge/courier.go:395-418 | succeeds only with a matching receipt on disk; adds at most that one receipt |
| `BridgePush.Courier.LinkSent` | cmd/amq-bridge/courier.go:843-854 | links into the archive exactly when nothing else is there under that name |
| `BridgePush.Courier.SyncSentDir` | cmd/amq-bridge/courier.go:855-857 | the archive survives a power failure before anything is removed |
| `BridgePush.Courier.RemoveMessage` | cmd/amq-bridge/courier.go:858-860 | the message leaves the spool before its sidecar |
| `BridgePush.Courier.RemoveSidecarFile` | cmd/amq-bridge/courier.go:861-863 | then the sidecar |
| `BridgePush.Courier.SyncSpoolDir` | cmd/amq-bridge/courier.go:864-866 | then the spool is synced and the next item is due |
| `BridgePush.Courier.MoveToSent` | cmd/amq-bridge/courier.go:836-868 | archives and retires one item, or stops; without faults exactly when the archive does not contradict it |
| `BridgePush.Courier.ReadFile` | cmd/amq-bridge/courier.go:529-584 | bytes first, then the sidecar; fails exactly when the file cannot be made an envelope |
| `BridgePush.Courier.ReadSpool` | cmd/amq-bridge/courier.go:513-587 | succeeds exactly when every spool file is readable, and reads the sorted listing in order, signing each |
| `BridgePush.Courier.PushBatch` | cmd/amq-bridge/courier.go:395-423 | without faults succeeds exactly when no stored file opposes the batch |
| `BridgePush.Courier.PushOnce` | cmd/amq-bridge/courier.go:374-425 | every operation is a step of the protocol; without faults it succeeds exactly when the spool is readable and unopposed, and then archives exactly the first min(batch, n) files from any crash state and changes nothing else |
| `BridgeSystem.AckedIsCommitted` | cmd/amq-bridge/courier.go:430-487 | in every run of both hosts and a hostile rendezvous, power failures on both hosts included, an acknowledged transfer was authenticated, published under its transfer file name, and stays in the inbox on disk until a consumer takes it |
| `BridgeSystem.InboxKept` | internal/bridge/apply.go:35-52 | no step changes or removes a published file but its consumer and a power failure |
| `BridgeSystem.AckedHasReceipt` | cmd/amq-bridge/courier.go:802-830 | its destination receipt is on disk too, unless one that was never synced was trusted |
| `BridgeSystem.DestReceiptsKeptExactly` | cmd/amq-bridge/courier.go:802-830 | a step keeps acknowledgements covered by receipts on disk if and only if it trusts no unsynced receipt |
| `BridgeSystem.DestReceiptDropsExactly` | internal/fsq/delivery_root.go:635-651 | a power failure can leave a transfer without its visible receipt if and only if that receipt is not on disk |
| `BridgeEndToEnd.AckedHasRead` | cmd/amq-bridge/courier.go:430-487 | in every run an acknowledged transfer from the source host has the signed bytes of something the courier read there, under the name of a message handed to Enqueue |
| `BridgeEndToEnd.AckedCarriesExactly` | internal/bridge/apply.go:21-53 | it carries that message to the alias its sender named if and only if the courier had read that message, up to its digest, and that alias |
| `BridgeEndToEnd.AckedCarriesEnqueued` | internal/bridge/apply.go:21-53 | and so it does, for an Enqueue that succeeded, when the courier reads whatever it signed these bytes for only after its Enqueue has returned and no power failure strikes in the window |
| `BridgeEndToEnd.PushReceiptIsNoCommit` | cmd/amq-bridge/courier.go:489-511 | a push receipt and an archived message exist in a run in which the destination committed nothing |
| `BridgeAcks.Acknowledges` | cmd/amq-bridge/courier.go:450-486 | four steps acknowledge an authentic transfer whose names are free, with its receipt on disk |
| `BridgeAcks.ForeignIsAcked` | cmd/amq-bridge/courier.go:450-486 | a transfer that meets the policy is acknowledged from any other host that signs it |
| `BridgeAcks.TrustLosesReceipt` | cmd/amq-bridge/courier.go:802-830 | from any such state, a receipt whose sync failed is trusted by the next poll and lost after the acknowledgement |
| `BridgeAcks.TrustedReceiptIsLost` | cmd/amq-bridge/courier.go:802-830 | the same as a run from the sender's Enqueue on |
| `BridgeAcks.AckReached` | cmd/amq-bridge/courier.go:430-487 | every message the courier can send to a destination that serves its alias is acknowledged in a run in which the courier reads it only after its Enqueue has returned |
| `BridgeAcks.AckedIsReachable` | cmd/amq-bridge/courier.go:430-487 | and such messages exist, for every digest function and any choice of hosts, handles, message id, thread and key generation, each of which arrives in its field |
| `BridgePoll.Receiver.Publish` | internal/fsq/maildir.go:159-205 | no-replace publication and sync of the inbox; a failed sync leaves the file visible |
| `BridgePoll.Receiver.Commit` | cmd/amq-bridge/courier.go:451-472 | publishes exactly authenticated envelopes that no stored bytes contradict, and never replaces other bytes |
| `BridgePoll.Receiver.WriteReceipt` | cmd/amq-bridge/courier.go:802-830 | succeeds exactly when the receipt is absent or agrees and nothing fails; a new one is synced, an old one is not synced again |
| `BridgePoll.Receiver.Record` | cmd/amq-bridge/courier.go:473-485 | acknowledges only with the destination receipt in place |
| `BridgePoll.Receiver.PollItem` | cmd/amq-bridge/courier.go:450-486 | commits, records and acknowledges; without faults exactly when nothing stored contradicts the transfer |
| `BridgePoll.Receiver.PollOnce` | cmd/amq-bridge/courier.go:430-487 | acknowledges a prefix of the poll in order, each only if authentic; without faults it stops only at a transfer that cannot pass, and goes through when none is opposed |
| `BridgeChecks.ValidExactly` | internal/bridge/envelope.go:59-108 | validation, field by field: which envelopes pass |
| `BridgeChecks.PassableExactly` | cmd/amq-bridge/courier.go:450-472 | the destination lets a transfer pass if and only if it is well made, its source host is allowlisted and trusted with the key generation it names, its alias is the local one and allowed, its host signed it, and nothing stored opposes it |
| `BridgeChecks.AckedMeetsChecks` | cmd/amq-bridge/courier.go:450-486 | in every run whatever is acknowledged met these checks |
| `BridgeChecks.Poll` | cmd/amq-bridge/courier.go:430-487 | whatever a poll newly acknowledges met them, and a faultless poll of compatible transfers that all meet them acknowledges every one |
| `BridgeApply.Store.ApplyEnvelope` | internal/bridge/apply.go:21-53 | each outcome exactly when; only a commit, or a failure of the last sync, touches the inbox, and only an absent entry |
| `BridgeApply.Store.WriteReceipt` | cmd/amq-bridge/courier.go:802-830 | stores exactly when the file is absent and nothing fails, or agrees; never changes an existing one |
| `BridgeApply.Store.Carry` | internal/bridge/apply.go:21-53 | any sequence of applies and receipt writes has the effect of which the next three speak |
| `BridgeApply.InboxIsFirstPayload` | internal/bridge/apply.go:35-52 | over any sequence of applies the inbox is the map from (source host, courier-made id) to the first accepted payload left there |
| `BridgeApply.ReceiptsAreFirstRecord` | cmd/amq-bridge/courier.go:802-834 | over any sequence of receipt writes the directory is the map from (transfer id, stage) to what was first left there, whole or torn |
| `BridgeApply.StoresOnlyGrow` | cmd/amq-bridge/courier.go:802-830 | no continuation changes or removes an entry of either store |
| `Maildir.Mailbox.Claim` | internal/fsq/find.go:37-91 | wins exactly when the file is in new and not in cur and nothing fails; not-exist exactly when it is gone; otherwise nothing changes |
| `Maildir.Mailbox.MoveCurToDlq` | internal/fsq/dlq.go:252-327 | envelope first, then the source: published exactly when the file is in cur and both preparation and delivery work, no error exactly when everything after it works too, a partial error exactly when both remain |
| `Maildir.Mailbox.MoveClaimedToDlq` | internal/fsq/dlq.go:206-250 | the same after a claim in doubt; the committed path named is the one where the message is |
| `Maildir.Mailbox.MoveNewToDlq` | internal/fsq/dlq.go:134-150 | claim and dead-letter move; nothing changes unless the claim is won |
| `Maildir.Mailbox.DeadLetter` | internal/cli/inbox_collect.go:111-168 | what the item reports is where the file is and which receipt was attempted; moved, failed or partial exactly as the operations of the move end |
| `Maildir.Mailbox.Process` | internal/cli/inbox_collect.go:84-178 | a claimed file ends as MovedToCur exactly when it is readable and parses, as MovedToDLQ exactly when it does not and the move works, and fails exactly when that move does |
| `Maildir.Mailbox.DrainOne` | internal/cli/inbox_collect.go:64-178 | an item exactly when this process won the claim; a lost race is skipped while the mailbox exists |
| `Maildir.Mailbox.Collect` | internal/cli/inbox_collect.go:62-181 | one item per claim in order, never more than the limit, files not reached untouched |
| `Maildir.Mailbox.Drain` | internal/cli/inbox_collect.go:46-186 | for every inbox and every outcome of its operations: exactly one item per claimed file, each telling the truth about its file, errors or not; which files fail the batch, and how, exactly |
| `Maildir.SmoothIsQuiet` | internal/cli/inbox_collect.go:62-181 | without faults no file fails the batch, so a drain without a limit succeeds |
| `Maildir.SmoothDrain` | internal/cli/inbox_collect.go:46-186 | what `Drain` ensures means without faults and without a limit: every listed file that was only in new has its item and is in cur when it parses and in the DLQ when it does not, with the matching receipt |
| `Maildir.BatchConserves` | internal/cli/inbox_collect.go:111-178 | every message that was only in new is then in exactly one of new, cur and the DLQ with its bytes, except the last item of a batch that failed with a partial transition, which is in cur and the DLQ |
| `Maildir.Mailbox.FinishDrain` | internal/cli/drain.go:80-114 | all items are printed before any error is returned, and the error keeps its kind |
| `Maildir.Mailbox.RunDrain` | internal/cli/drain.go:76-114 | every claim of the run has its item on the output, whatever error is returned |
| `Maildir.Mailbox.ReadFailure` | internal/cli/read.go:151-195 | always has an item to show; MovedToDLQ exactly when the claim is won and the move works, no error exactly when every sync works too |
| `Maildir.Mailbox.Read` | internal/cli/read.go:78-149 | only a won claim changes anything; body, item and receipt match the outcome; a reader that loses the race fails |
| `MaildirRace.AtMostOneClaimant` | internal/fsq/find.go:51-70 | in every interleaving of any number of drains and reads, with crashes, a delivered message is claimed by at most one process |
| `MaildirRace.ReceiptsByClaimant` | internal/cli/inbox_collect.go:119-178 | a receipt is attempted only by the claimant, and only once |
| `MaildirRace.NothingVanishes` | internal/fsq/dlq.go:284-327 | as long as the mailbox stays, no delivered message is ever gone from new, cur and the DLQ together |
| `MaildirPlaces.StepKeepsPlaces` | internal/fsq/dlq.go:252-327 | what every step of every consumer keeps about the places of a message |
| `MaildirPlaces.OnePlaceAtATime` | internal/fsq/dlq.go:252-327 | in every run a message in new is in no other place, in cur it is under one name, and it is in cur and the DLQ together only while its claimant, or where its claimant stopped, is between publishing the envelope and unlinking the source, before any receipt |
| `MaildirReceipts.ReceiptTellsPlace` | internal/cli/inbox_collect.go:119-178 | in every run and for good, a message with a drained receipt is in cur and not in the DLQ, and one with a dead-letter receipt in the DLQ and not in cur |
| `MaildirReceipts.AbandonedForGood` | internal/fsq/dlq.go:252-327 | a message whose claimant crashes or gives up half-way stays in cur, in both, or in the DLQ, however the run goes on, and never gets a receipt |
| `MaildirReceipts.OwnStepsRunOut` | internal/cli/inbox_collect.go:62-181 | every step of a consumer brings it nearer to its end, nothing but a crash or a fault touches it from outside, and an ended one stays ended |
| `MaildirRace.OnlyReadersLose` | internal/cli/inbox_collect.go:64-83 | with the mailbox in place and names not reused, a process fails only on an I/O fault, or because it is a reader that lost |
| `MaildirRace.LostMeansTaken` | internal/cli/inbox_collect.go:71-79 | what a process found gone was claimed by another one |
| `MaildirRace.ReaderFailsWhereDrainSkips` | internal/cli/read.go:124-133 | the same lost race ends a drain well and fails a read |
| `Dlq.Purge.Select` | internal/cli/dlq.go:741-770 | whatever others do between its three looks: selected exactly when the last look finds the file and it is due, an error exactly when it finds none or cannot tell its age; what a candidate records is what was seen |
| `Dlq.Purge.Remove` | internal/cli/dlq.go:772-796 | removes exactly when identity and digest still match and the removal works, fails exactly when only that does not; otherwise the directory is as found |
| `Dlq.Purge.SelectAll` | internal/cli/dlq.go:640-669 | undisturbed, the candidates are exactly the due files |
| `Dlq.Purge.Run` | internal/cli/dlq.go:638-739 | whatever others do meanwhile, each deletion is of a file still equal to one selected and the count is the number of deletions; undisturbed, exactly the due files go whose removal works, and it succeeds exactly when every file could be judged and none failed to go |
| `Dlq.ScanBoth` | internal/cli/dlq.go:488-520 | each visible name once, standing for the copy in cur if there is one |
| `Dlq.ChosenExactly` | internal/cli/dlq.go:522-548 | each result list holds exactly the attempts with its outcomes |
| `Dlq.ChosenSizes` | internal/cli/dlq.go:522-548 | and together they are as long as the list of attempts: a partition |
| `Dlq.RetryAll` | internal/cli/dlq.go:481-566 | one attempt per visible name, in one list each; success exactly when both scans worked and every attempt was retried or delivered before |
| `Dlq.ListBoth` | internal/cli/dlq.go:187-244 | a name is listed exactly when the copy standing for it parses: a corrupt copy in cur hides the one in new |
| `DlqRetry.StepKeeps` | internal/fsq/dlq.go:464-612 | what every operation of a retry, a crash, a consumer and an inspection keep |
| `DlqRetry.DeliveredAtMostOnce` | internal/fsq/dlq.go:464-612 | over any retries and crashes a message is delivered at most once more than the number of attempts that left their staged copy behind; the envelope is never lost and says delivered only after a delivery |
| `DlqRetry.RetriesAreBounded` | internal/fsq/dlq.go:546-550 | without --force the retry count never passes 3, and the copy in cur never counts less than one in new |
| `DlqRetry.CopiesAreConserved` | internal/fsq/dlq.go:464-612 | in every run each copy delivered, and the one retained at the start, is in the inbox, with a consumer, or was taken: none appears or vanishes |
| `DlqRetry.AttemptDeliversExactly` | internal/fsq/dlq.go:464-612 | an undisturbed attempt delivers exactly when the envelope is ready, no copy is in the inbox or with a consumer, and the limit is not reached or overridden; it counts once and leaves one envelope, in cur |
| `DlqRetry.FailedAttempt` | internal/fsq/dlq.go:564-582 | one that cannot stage or publish delivers nothing and leaves the envelope ready, counted once more |
| `DlqRetry.RecoveryExactly` | internal/fsq/dlq.go:506-539 | a retry that finds an earlier one unfinished delivers exactly when a staged copy is left and no copy is in the inbox or with a consumer, records either way, and without any copy refuses |
| `DlqRetry.LeftoversDeliverAgain` | internal/fsq/dlq.go:765-802 | the bound is tight for every n: a run with n staged copies left by failed publications and n + 1 deliveries; without --force for n up to 2 |
| `Roster.UnionIsOrdered` | internal/cli/setup.go:835-839 | the union is an ordered list of exactly the names on either side |
| `Roster.OrderedUnique` | internal/cli/setup.go:835-839 | there is only one such list |
| `Roster.DedupeAndSort` | internal/cli/common.go:639-650 | the de-duplicating loop followed by any sort gives that list |
| `SetupGitignore.SecondTimeUnchanged` | internal/cli/setup.go:876-914 | a second run leaves .gitignore alone if and only if the root pattern was there, or is findable, or the root is absolute |
| `SetupGitignore.RootIsFindable` | internal/cli/setup.go:885-888 | findable means: the root has no newline and no leading white space |
| `Setup.PreviewMatchesCommit` | internal/cli/setup.go:380-394 | without interference the steps written are the changes previewed, one to one and in order |
| `Setup.RosterCoversLaunch` | internal/cli/setup.go:921-984 | at every crash prefix the roster holds every agent of the launch.json then on disk, given that it did at the start, and in any case once launch.json is written |
| `Setup.RootAgain` | internal/cli/setup.go:724-754 | an explicit root is accepted again exactly when it was given without surrounding white space |
| `Setup.ChooseAgain` | internal/cli/setup.go:537-608 | agents once chosen are chosen again |
| `Setup.RerunConverges` | internal/cli/setup.go:921-984 | rerunning from any stop reaches the same files; only a roster never written may get a later creation time; it reaches the same mailboxes if and only if the stop did not leave just those of the human handle to be made, and then only these stay missing |
| `Setup.HumanMailboxStaysMissing` | internal/cli/setup.go:849-874 | such a stop, and the mailbox the rerun does not make |
| `Setup.SecondRunWritesNothing` | internal/cli/setup.go:349-387 | a second run after a complete one writes nothing if and only if the roster is in order; otherwise it rewrites exactly the two roster steps |
| `Setup.Files.Perform` | internal/cli/setup.go:986-996 | an unchanged file is left alone; a step may fail before or after taking effect |
| `Setup.Files.Commit` | internal/cli/setup.go:921-984 | whatever fails, the disk is that of a stopped run and the list of writes that of its completed steps; it succeeds exactly when every step with something to write can be written, and otherwise stops at the first that cannot |
| `SetupResult.SetupLeaves` | internal/cli/setup.go:921-984 | after a complete setup launch.json has the session, layout and agents asked for, the roster those agents and its creation time, every agent mailboxes at the base and in the session, the local file the launchers, .amqrc the root and .gitignore its patterns; other mailboxes and files that already said so are as before |
| `SetupResult.BuildExactly` | internal/cli/setup.go:264-388 | setup refuses exactly when a file cannot be read, the root is missing or contradicted, or no agents are known |
| `SetupResult.ProvisionExactly` | internal/cli/setup.go:849-874 | provisioning is previewed exactly when some agent lacks one of its two mailboxes |
| `Routing.StampReadsBack` | internal/cli/reply.go:525-568 | parsing undoes stamping for valid handles and sessions that are valid handles |
| `Routing.ReplyToReadsExactly` | internal/cli/reply.go:525-555 | a stamp is read exactly when it is one handle, where that is allowed, or two around its only at sign |
| `Routing.DashedSessionUnreadable` | internal/cli/common.go:593-607 | a valid session name can be read back exactly when it does not start with a dash |
| `Conversation.ReplyComesHome` | internal/cli/reply.go:139-196 | a reply to an answerable message succeeds, arrives at its author's root and handle, and is answerable in turn |
| `Conversation.SendIsAnswerable` | internal/cli/send.go:481-500 | what send delivers is answerable, locally, across sessions and across mutually registered projects |
| `Conversation.PlanExactly` | internal/cli/route.go:230-285 | where a route leads, read off its arguments: the base is that of the project given or one's own, the session the one given, the mirrored one or none, and it must be there |
| `Conversation.SendExactly` | internal/cli/send.go:202-271 | a message is sent exactly when the handles are valid, the root meant is there with a mailbox for each recipient, and it is not one's own mailbox unless allowed; sender, recipients, thread, references and the way back are those asked for |
| `Conversation.ReplyExactly` | internal/cli/reply.go:139-196 | a reply goes out exactly when the message names someone to answer with a mailbox at the root meant, to them alone, in its thread, referring to it |
| `Conversation.ConversationHolds` | internal/cli/reply.go:340-370 | conversations of any length: each message in the mailbox of the author before it, one thread, references to all ancestors oldest first |
| `Conversation.SelfReply` | internal/cli/reply.go:172-181 | a local message to oneself is answered to its author exactly when it names the author first |
| `Conversation.AnswerableIffSessionIsHandle` | internal/cli/reply.go:158-168 | across sessions a reply arrives if and only if the sender's session name is a valid handle |
| `RouteExplain.ArgvReadsBack` | internal/cli/route.go:369-379 | parsing the printed argument vector gives back root, sender, recipient, project and session |
| `RouteExplain.InlineReads` | internal/cli/send.go:815-832 | `agent@project` and `agent@project:session` are read as these; a session flag wins |
| `RouteExplain.ExplainExactly` | internal/cli/route.go:96-181 | a route is explained exactly when sending would find the root meant and a mailbox there, and the command names sender, recipient, project and the session given or mirrored |
| `RouteExplain.ExplainIsFixpoint` | internal/cli/route.go:96-181 | sending by the explained command delivers to the explained root if and only if the project is found under its trimmed name and a mirrored session is a valid handle |
| `RouteExplain.DisplayRunsArgv` | internal/cli/route.go:381-387 | a shell reading the display command gets the argument vector exactly when the root path is not empty |
| `Shell.PosixRoundTrip` | internal/cli/env.go:1025-1033 | POSIX quoting then lexing is the identity, except that the empty string disappears |
| `Shell.TwoPassesAreOne` | internal/cli/env.go:1037-1047 | the two replacement passes for fish are one character-wise escape |
| `Shell.FishRoundTrip` | internal/cli/env.go:1037-1047 | fish quoting then reading is the identity on every string |
| `Shell.ArgRoundTrip` | internal/cli/doctor_ops.go:749-770 | the argument quoter is exact on every string, the empty one included |
| `Shell.DisplayReadsBack` | internal/cli/route.go:381-387 | a displayed command is read as its arguments without the empty ones |
| `Shell.DisplayIsExact` | internal/cli/route.go:381-387 | tokenising it gives the arguments back exactly when none is empty |
| `StrictJson.ScanIsVerdict` | launchapi/intent.go:394-451 | on the tokens of any value the scan reports the first of all violations in token order, or consumes exactly the value |
| `StrictJson.StrictScan` | launchapi/intent.go:390-451 | it succeeds if and only if no object repeats a name and containers nest at most 256 deep |
| `StrictJson.ReportIsThere` | launchapi/intent.go:394-451 | the path reported leads to the container at fault |
| `StrictJson.Append` | launchapi/intent.go:420-421 | appending in place or into a copy: the slice appended to keeps its contents |
| `StrictJson.Reject` | launchapi/intent.go:394-451 | the scanner with its shared backing array agrees with the function on any token stream and leaves its own path intact |
| `StrictJson.RejectMembers` | launchapi/intent.go:405-433 | the loop over members, likewise |
| `StrictJson.RejectItems` | launchapi/intent.go:434-446 | the loop over items, likewise |
| `StrictPath.RenderPath` | launchapi/intent.go:453-465 | the loop prints the segments one after the other |
| `StrictPath.PlainPathReadsBack` | launchapi/intent.go:453-465 | among paths whose keys have neither a dot nor a bracket the printed text determines the path |
| `StrictPath.KeySwallows` | launchapi/intent.go:453-465 | otherwise it does not: any path with a key before its last segment prints like a shorter one |
| `StrictPath.SecondReadingExactly` | launchapi/intent.go:453-465 | the printed text has a second reading if and only if a key stands before another segment, or the last key holds a dot or ends like an index |
| `Acp.StepKeeps` | internal/acp/server.go:111-143 | what every request line, crash and restart keeps |
| `Acp.DeliveriesPerEvent` | internal/acp/deliver.go:39-144 | over any run with crashes the deliveries of an event are those whose journal record was not completed, plus one if it is recorded |
| `Acp.DeliveredInSession` | internal/acp/server.go:218-311 | every delivery came from a process that had completed initialize and opened the session |
| `Acp.NothingOnceJournaled` | internal/acp/event.go:101-146 | once an event is in the journal, torn or not, nothing more is delivered for it and its record stays |
| `Acp.DuplicateNamesOriginal` | internal/acp/deliver.go:45-60 | the record a duplicate is answered from names a message that was delivered for the event |
| `AcpAnswers.OpenExactly` | internal/acp/server.go:218-269 | in every run a session is open exactly when the running process accepted initialize and later opened it |
| `AcpAnswers.QueuedExactly` | internal/acp/deliver.go:39-144 | a well-formed prompt in an open session is answered as queued exactly when its event is not in the journal, the message reached the inbox and its record was completed; the answer names the message delivered |
| `AcpAnswers.RepeatIsAnswered` | internal/acp/deliver.go:45-60 | a prompt for a recorded event delivers nothing and is answered with a message delivered for it |
| `AcpAnswers.RepeatNamesFirst` | internal/acp/event.go:101-146 | after an event was answered as queued, every later prompt for it, after any requests, crashes and restarts, is told that same message |
| `AcpAnswers.ImproperIsRefused` | internal/acp/server.go:271-290 | any other request delivers and journals nothing |
| `AcpAnswers.CallsExactly` | internal/acp/server.go:130-269 | initialize, session/new and cancel report success exactly when accepted, which for the last two takes readiness or an open session |
| `Acp.AnswerOwed` | internal/acp/server.go:111-128 | an answer goes to exactly the lines owed one and carries their id; of the lines JSON-RPC entitles to one, exactly overlong lines and requests with a null id get none |
| `Acp.AnswersOwed` | internal/acp/server.go:84-108 | a process that lives through the lines answers exactly those owed an answer, in order |
| `Acp.Server.DeliverPrompt` | internal/acp/deliver.go:39-144 | journal read, delivery, journal write, with each way they can end |
| `Acp.Server.DispatchCall` | internal/acp/server.go:130-143 | the handlers' effect on ready and sessions |
| `Acp.Server.HandleLine` | internal/acp/server.go:111-128 | one line, at most one answer |
| `Acp.Server.Serve` | internal/acp/server.go:84-108 | state and answers are those of the lines handled, one after the other; all lines are handled and answered unless writing fails, the process dies, or a line is overlong, which ends it exactly there with an error |
| `Acp.ResolveEvent` | internal/acp/event.go:36-95 | a prompt has an event exactly when its candidates all name one valid id after trimming and lower-casing |
| `Walks.GitRoot` | internal/cli/env.go:588-617 | the loop computes the boundary |
| `Walks.BoundaryIsNearest` | internal/cli/env.go:588-617 | the boundary is the nearest ancestor with a present or uninspectable marker, else the nearest that looks like a bare repository |
| `Walks.Walk` | internal/cli/env.go:742-802 | the loop of the configuration walk looks only at eligible directories |
| `Walks.LookIsNearest` | internal/cli/coop_exec_declaration.go:66-99 | the three walks return the nearest hit below the boundary, or below home outside Git |
| `Walks.SearchIsNearest` | internal/cli/env.go:823-861 | the same from any directory on the way |
| `Walks.LooksNoFurther` | internal/cli/env.go:742-802 | what lies beyond the boundary makes no difference |
| `Walks.SourcesExactly` | internal/cli/env.go:341-458 | the order of the sources, each exactly when: the nearest project file, the global environment, then in Git the directory found, and outside Git the global file before it |
| `Walks.ResolveEnv` | internal/cli/env.go:341-458 | with no root flag and AM_ROOT unset it selects what resolveDiscoveredBaseRoot selects, and refuses exactly when that refuses or has no source, or the agent named is not a valid handle |
| `Semver.CompareIsOrder` | launchapi/compatibility.go:77-85 | on anything parsing can produce the 64-bit subtraction does not wrap and its sign is the lexicographic order |
| `Semver.ComparesClamped` | launchapi/compatibility.go:66-85 | for any two version texts the sign of the comparison is the lexicographic order of their numbers, each cut to the largest int |
| `Semver.ParsedCompareExactly` | launchapi/compatibility.go:66-85 | they compare as section 11 of SemVer 2.0.0 orders them if and only if the first number in which they differ is not past the limit on both sides, or what follows points the same way |
| `Semver.SmallIsFaithful` | launchapi/compatibility.go:66-85 | which holds whenever one side is below the limit |
| `Semver.TiesExactly` | launchapi/compatibility.go:66-75 | two versions compare equal exactly when their components are equal or both at or past the largest int |
| `Semver.SpellReads` | launchapi/compatibility.go:64-75 | every version, however large, is what some text means |
| `Semver.OrderInverts` | launchapi/compatibility.go:77-85 | two texts that compare the wrong way round |
| `Semver.TermReads` | launchapi/compatibility.go:99-109 | an operator followed by a version is read as that operator, never as a shorter one |
| `Semver.TermMeans` | launchapi/compatibility.go:99-123 | a term holds of a version exactly when the exact order says so, whenever the two compare faithfully |
| `Semver.TermExactly` | launchapi/compatibility.go:99-123 | any text is a term that holds of a version below the limit exactly when it is an operator and a version that ask something true |
| `Semver.RequirementMeans` | launchapi/compatibility.go:87-125 | any requirement text contains a version below the limit exactly when every term of it asks something true in the exact order |
| `Semver.ContractIsSmall` | launchapi/compatibility.go:11-11 | the contract offered is below the limit |
| `Semver.RangeContains` | launchapi/compatibility.go:87-125 | true exactly when the candidate parses and every term holds |
| `Semver.FieldsExactly` | launchapi/compatibility.go:87-98 | the terms of a requirement are its maximal runs without white space, in order |
| `Semver.RangeIsConvex` | launchapi/compatibility.go:87-125 | a range with two versions contains everything between |
| `Semver.Negotiate` | launchapi/compatibility.go:24-56 | succeeds exactly when versions match and the features asked for are distinct and supported; returns them in supported order |

## Left out

- HTTP transport, URL and flag parsing, help, completion, presence, warnings and other output: no deep property.
- Wake locks, process and tree identity, session pins and the guards around them: the deciding functions are elsewhere.
- launchapi Prepare, Apply and lifecycle conversions: field-by-field wrappers.
- Cryptography, hashing, JSON and base64 themselves: uninterpreted.
- The Windows claim, which has no atomic rename by path.
- Two couriers on one spool at a time.
- On the destination, the fallback of ApplyEnvelope that reads the file again after a failed comparison, which would commit without syncing.
- Power failures in the Maildir, DLQ, setup and ACP parts: only process stops are modelled there.
- BridgeEnvelope.MarkedMessageIdIsAmbiguous: shows the ambiguity for the whole family of marked message ids; whether any other newline yields a second valid envelope depends on digest preimages.
- Maildir.Mailbox.Interfere: another consumer takes the file to cur or on to the DLQ; its own half-done dead-letter moves are in MaildirRace.
- Maildir.Mailbox.Drain: the order of the output is any permutation, because the comparison of SortByTimestamp mixes two keys and need not be transitive.
- Maildir.Mailbox.FinishDrain: says nothing about what a failing output has already printed.
- Dlq.RetryAll: the outcome of one attempt is a function of its file name; DlqRetry models the attempt itself.
- DlqRetry.DeliveredAtMostOnce: purge is not among the events, nor is a file of the same name delivered by somebody else.
- Setup.RerunConverges: covers non-interactive runs with the same inputs; mailbox provisioning is a set of (session, handle) pairs, and a stop inside it leaves any part of them.
- Conversation.SendIsAnswerable: mailboxes must exist; the creation of a local recipient's mailbox on the way is not modelled.
- RouteExplain.ExplainIsFixpoint: one recipient, written once; pin and cross-tree guards are not modelled.
- Shell.FishRoundTrip: reads one argument, not a whole fish command line.
- Acp.Server.Serve: requests are given as decoded; decoding and the text of prompts and errors are not modelled.
- Walks.Walk: one method stands for the three loops, which differ only in what they look for in a directory; the final path canonicalisation of the chosen root is not modelled.
- Semver.Negotiate: the supported contract version and features are parameters.
