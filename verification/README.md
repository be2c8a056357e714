# Rosetta, modelled in Dafny

Rosetta is a service agent that signs messages, sends them to a shared room log, counts what it
promised, and rolls back what it changed, all of it across restarts. This project models the
parts of it that keep durable state, and proves what they promise over every run: any
interleaving, any clock, a death between any two writes.

`dafny verify dfyconfig.toml` checks everything.

## How the files follow the program

| file | part of the program |
|---|---|
| `Signer.dfy`, `Canonical.dfy` | the signer: nonce lanes, signed payloads, the signing protocol |
| `Technocore.dfy` | the remote log with one-shot faults and the (did, nonce) check |
| `DeliveryProtocol.dfy` | `send_text` as a machine of single durable steps, and the invariant of all runs |
| `DeliverySafety.dfy`, `DeliveryProgress.dfy`, `DeliveryFaults.dfy`, `DeliveryLoss.dfy` | what every run of that machine keeps, when a call delivers, how it ends under each fault, and a run after which the first does not |
| `Delivery.dfy` | `ReliableMessenger` as a class, equal step for step to that machine |
| `Requests.dfy`, `Engagement.dfy`, `Persistence.dfy` | the tables of `StateStore`, one atomic operation per transaction |
| `RequestAnswers.dfy` | how a request call is answered after any use of the book |
| `EngagementReplies.dfy`, `EngagementCampaign.dfy`, `EngagementBounds.dfy` | what replies and campaign posts keep, each alone and interleaved |
| `Jobs.dfy`, `Polling.dfy`, `Pilot.dfy` | the pilot loop over those tables, the fixture adapter and its cursors |
| `MailboxRuns.dfy`, `EngagementRuns.dfy` | the mailbox and the engagement poll over whole runs: rooms that grow or are recreated, polls cut off anywhere |
| `AdapterPosting.dfy` | a fixture adapter's signed post |
| `DeliveryKeys.dfy`, `PublicWrites.dfy` | the keys of all sends, and everything the pilot makes public together: tables, book and delivery in one machine |
| `Evolution.dfy`, `EvolutionEngines.dfy` | promotion and rollback as writes to a disk, and as the engine's methods |
| `EvolutionPaths.dfy`, `EvolutionRefusals.dfy`, `EvolutionSafety.dfy`, `EvolutionInstall.dfy` | what the checks guarantee, exactly what is refused and what a rollback does with edited files, recovery after any cut, and when a promotion finishes |
| `EvolutionPackage.dfy` | the package a candidate is staged as, and when it verifies |
| `Candidate.dfy` | validation of a candidate |
| `Base58.dfy`, `Base64Url.dfy`, `Radix.dfy` | base58btc and did:key, base64url, and the positional numerals under them |
| `EventChain.dfy`, `Bundle.dfy`, `BundleLayout.dfy`, `Orders.dfy` | evidence: the hash chain, bundles, and the orders files are sorted by |
| `SealAcceptance.dfy` | exactly which bundles and packages are accepted |
| `IsoTime.dfy`, `StoredTimes.dfy` | why comparing stored times as text compares times, and the participation tables on those texts |
| `Outbound.dfy` | the texts the pilot may write and the check they pass |

Conventions. A durable table is a `map` field that each transaction reassigns. A death is a number
of steps or writes after which nothing more happens; an unfinished call simply keeps what it
wrote. Times are integers in microseconds (`IsoTime.dfy` says why that is enough). A signature is
the pair of an identity and the bytes it covers, so it verifies for exactly those. SHA-256 of
canonical JSON is a function parameter, assumed collision-free where a theorem says so. Every lemma
switches automatic induction off: the proof is the one that is written, and no lemma rests on an
induction hypothesis the verifier made up.

Five results are about a property that does not hold without a condition, and give the exact one:
`Base58.DecodeEncode` and `Base58.EncodeDecode` (the empty string), `DeliveryProgress.SendDelivers`
(a lost reply beyond the reach of one read; `DeliveryLoss.FirstSendIsLost` reaches it),
`Bundle.BuiltVerifiesExactly` and `EvolutionPackage.StageThenVerify` (paths whose component order and
text order differ, or that hold a line break; `BundleLayout.SlashedIdsClash` and
`EvolutionPackage.RefusedPackage` reach them), and `EvolutionInstall.PromotionFinishes` (a file where a
created path needs a directory; `EvolutionInstall.FileInTheWay` stops there).

## Model

| member | source | states |
|---|---|---|
| Signer.NonceStore.Next | src/rosetta_signer/nonce_store.py:29-48 | a lane moves to the nonce it gives out and only ever up; a refused nonce moves nothing |
| Signer.SignerProtocol.Handle | src/rosetta_signer/protocol.py:33-95 | one request is answered as specified: the fields, the lane, the payload, the event; a nonce is spent even if signing then fails |
| Signer.RunKeepsInv | src/rosetta_signer/protocol.py:33-95 | over every run with deaths after the nonce, each event's payload is the one of its lane and nonce, and nonces of a lane rise |
| Signer.MessageAnswered | src/rosetta_signer/protocol.py:33-95 | a message is signed exactly if its nonce, asked for or the next one, is above its lane and fits the column, its room is one field and its text sweeps to at most 4096 characters; over the room, the nonce and the swept text; a free nonce is spent even if the rest refuses it |
| Signer.NoteAnswered | src/rosetta_signer/protocol.py:33-95 | the same for a note: one of the two namespaces, a key of one field, 8192 characters |
| Signer.OtherRequestsAnswered | src/rosetta_signer/protocol.py:33-95 | other fields than the action's are refused; a digest is signed in its domain exactly if it is one, without a nonce |
| Signer.SignaturesOverSameBytes | src/rosetta_signer/protocol.py:49-64 | over every run, two signatures over the same bytes are of one kind of domain document, or a message and a note whose key spells the message's nonce and whose namespace is the message's room; never two messages, never two notes |
| Signer.MessageAndNoteCoincide | src/rosetta_signer/canonical.py:28-43 | two requests to a fresh signer that sign such a message and note over the same bytes, for every owners or allow-list value |
| Canonical.SweepIdempotent | src/rosetta_signer/canonical.py:15-25 | sweeping a swept text changes nothing |
| Canonical.SweepExactly | src/rosetta_signer/canonical.py:15-25 | the sweep is the stretch of the spaced characters from the first to the last that is not whitespace, refused exactly if there is none or it is too long |
| Canonical.RoomPayloadDetermines | src/rosetta_signer/canonical.py:28-33 | a room payload determines room, nonce and swept text |
| Canonical.NotePayloadDetermines | src/rosetta_signer/canonical.py:36-43 | a note payload determines namespace, key, nonce and swept value |
| Canonical.NoteReadAsRoom | src/rosetta_signer/canonical.py:28-43 | a note payload is also some room payload exactly if its key is a nonce in decimal and the rest fits a room text |
| Technocore.LocalTechnocore.Post | src/rosetta/local_protocol.py:119-147 | a post is answered as specified, with the 429 before and the lost reply after the record is committed |
| Technocore.LocalTechnocore.Read | src/rosetta/local_protocol.py:111-114 | a bounded read gives the first newer records in log order |
| Technocore.LocalTechnocore.RoomLastSequence | src/rosetta/local_protocol.py:116-117 | the highest sequence of a room |
| Technocore.LocalTechnocore.CreateRoom | src/rosetta/local_protocol.py:100-103 | a room is created once and never emptied |
| Technocore.PostKeepsRemote | src/rosetta/local_protocol.py:119-147 | every post keeps sequences rising, signatures valid and (did, nonce) unique, and drops no record |
| Technocore.UsedNonceAnswered | src/rosetta/local_protocol.py:135-140 | under a used nonce a well-signed post is answered with the record that used it exactly if text and signature are its own, and refused otherwise; the logs stay |
| Technocore.FreshNonceAnswered | src/rosetta/local_protocol.py:141-147 | under a new nonce a well-signed post appends its record and is answered with it, or with a lost connection exactly if one waits |
| Technocore.OtherPostsAnswered | src/rosetta/local_protocol.py:128-134 | a waiting 429 comes first and is spent; a post that is not well signed is refused; the logs stay |
| Technocore.PostedIsAsked | src/rosetta/local_protocol.py:119-147 | a record that is answered has the room, did, nonce, text and signature that were posted |
| Technocore.NewerIsSuffix | src/rosetta/local_protocol.py:111-114 | the records newer than a cursor are a suffix of the log |
| Technocore.AtMostTheGap | src/rosetta/pilot.py:889-903 | a room holds no more newer records than the sequences lie apart |
| Delivery.ReliableMessenger.SendText | src/rosetta/delivery.py:58-118 | one call, cut off anywhere, does exactly what the step machine does and shows its caller that outcome |
| Delivery.ReliableMessenger.Reconcile | src/rosetta/delivery.py:36-47 | reconciliation ends as specified: a duplicate, nothing found, or the record to confirm |
| DeliverySafety.StepKeeps | src/rosetta/delivery.py:58-118 | every single step of a send keeps the joint invariant of lanes, rows and log, and takes nothing back |
| DeliverySafety.RunKeeps | src/rosetta/delivery.py:58-118 | the invariant holds in every state of every run with deaths, faults, foreign posts and other signing |
| DeliverySafety.RunGrows | src/rosetta/persistence.py:515-536 | from any point of a run to a later one rows keep their bytes, confirmed rows stay, logs only grow |
| DeliverySafety.AtMostOnce | src/rosetta/delivery.py:58-118 | the log holds at most one record of a row, byte-equal to it, and a confirmed row names it |
| DeliverySafety.EveryOwnRecordHasOneKey | src/rosetta/local_protocol.py:135-147 | every own record in a room carries exactly one row |
| DeliverySafety.NoReplayConflict | src/rosetta/local_protocol.py:135-140 | no post of a messenger is refused as a replay conflict, and no send ends in an impossible error |
| DeliverySafety.SameRecordForOneKey | src/rosetta/delivery.py:58-118 | all successful sends of one key return the same record, with the text asked for |
| DeliverySafety.CallIsRun | src/rosetta/delivery.py:58-118 | a call cut off after any number of steps is a run, so all of this holds of calls |
| DeliveryProgress.SendDelivers | src/rosetta/delivery.py:58-118 | with an open gate and no further network fault a send delivers exactly unless its first reply is lost in a room of a hundred records or more |
| DeliveryProgress.SendEnds | src/rosetta/delivery.py:58-118 | either way the row is there and landed, and the same request can be sent again |
| DeliveryProgress.SecondSendDelivers | src/rosetta/delivery.py:58-118 | the next send of the same request always delivers |
| DeliveryFaults.UnclearSendEnds | src/rosetta/delivery.py:108-117 | with one fault in the way of its post, a 403, 409 or 422 or a lost request or reply, a send delivers exactly if the record then lies in the first hundred of its room, and else reports it not found; either way its row is kept for a further call |
| DeliveryFaults.RefusedSendEnds | src/rosetta/delivery.py:108-112 | any other refused status is reported at once, and the row stays prepared |
| DeliveryFaults.ShortLimitEnds | src/rosetta/delivery.py:99-107 | a 429 of at most two seconds is tried again, and the send ends as on a quiet network |
| DeliveryFaults.LongLimitEnds | src/rosetta/delivery.py:104-106 | a longer 429 is reported at once |
| DeliveryFaults.SecondLimitStops | src/rosetta/delivery.py:99-107 | a second 429 is reported |
| DeliveryFaults.NextCallEnds | src/rosetta/delivery.py:58-118 | after any of these a further quiet call ends as a first one does |
| DeliveryFaults.ClosedGateStops | src/rosetta/delivery.py:61 | behind a closed gate nothing is signed, stored or posted |
| DeliveryFaults.OtherRequestIsConflict | src/rosetta/delivery.py:89-92 | a key taken by another actor, room or text is a conflict, and nothing changes |
| DeliveryFaults.ConfirmedIsAnswered | src/rosetta/delivery.py:93-97 | a confirmed row is answered with its record and nothing is posted |
| DeliveryFaults.UnsignableIsRefused | src/rosetta/delivery.py:64-69 | a text that cannot be signed ends the send without a row or a post |
| DeliveryFaults.InvalidStops | src/rosetta/delivery.py:99-118 | a post the log finds badly signed ends the call at once |
| DeliveryLoss.FirstSendIsLost | src/rosetta/delivery.py:36-47 | after a run of a hundred foreign posts and one lost reply to come, the first send of any request ends unconfirmed, and the second delivers |
| DeliveryLoss.FirstPostIsUncertain | src/rosetta/adapters.py:121-137 | in the same place an adapter's post raises although its record is in the log |
| Persistence.StateStore.ReserveRequest | src/rosetta/persistence.py:194-264 | afterwards a new request has its row, its job as accepted, and one more in both counts of its day; a known one, a full quota or a full queue leaves all four tables as they were |
| Persistence.StateStore.StoreResult | src/rosetta/persistence.py:266-283 | afterwards the request has the result and its job is complete, together or not at all |
| Persistence.StateStore.MarkJob | src/rosetta/persistence.py:285-293 | afterwards a job that exists has the given status and time; nothing else changed |
| Persistence.StateStore.PendingJobs | src/rosetta/persistence.py:295-300 | exactly the pending jobs, each once, by last update, then requester, then request |
| Persistence.StateStore.AdvanceRoomCursor | src/rosetta/persistence.py:325-332 | a cursor never moves backwards and keeps its generation |
| Persistence.StateStore.SetRoomGeneration | src/rosetta/persistence.py:314-323 | a new generation keeps the cursor or starts it over |
| Persistence.StateStore.SetEngagementCheckpoint | src/rosetta/persistence.py:340-348 | sequence and generation of a room's checkpoint are set together |
| Persistence.StateStore.ReserveEngagementReply | src/rosetta/persistence.py:350-398 | afterwards the reply has a row of its author and time if the day has room and neither author nor room had one too recently; otherwise the table is as it was, and an existing row is told from one of another author |
| Persistence.StateStore.ReserveProactivePost | src/rosetta/persistence.py:400-452 | afterwards the slot has a row if the campaign is running, the room's day has room and its last reply and post are old enough; otherwise the table is as it was |
| Persistence.StateStore.PrepareDelivery | src/rosetta/persistence.py:515-528 | a key is prepared once, with all its bytes |
| Persistence.StateStore.ConfirmDelivery | src/rosetta/persistence.py:530-536 | confirmation changes status and sequence of one existing row only |
| Requests.QuotaConservation | src/rosetta/persistence.py:194-264 | after any sequence of operations, for every day the global count is the number of calls accepted on it, of its request rows, and the sum of the counts per DID, and none exceeds its limit |
| Requests.OpsKeepQuotas | src/rosetta/persistence.py:194-293 | storing results and marking jobs never disturbs the counts, and wherever a call that is not accepted comes, all four tables stay as they were |
| RequestAnswers.KnownCallAnswered | src/rosetta/persistence.py:209-216 | once a call was accepted, every later call of its key is a duplicate exactly if it has its content and a conflict otherwise, whatever the quotas and the queue; the book stays |
| RequestAnswers.NewCallAnswered | src/rosetta/persistence.py:217-261 | a key never accepted is refused for the quota exactly if the day's rows reached a limit, busy exactly if the queue is full, and booked otherwise, never an integrity error |
| RequestAnswers.OldestFirst | src/rosetta/persistence.py:295-300 | pending jobs are listed by their last update, then requester, then id |
| EngagementBounds.RepliesBounded | src/rosetta/persistence.py:350-398 | over any calls with any clocks, two replies to one author are more than 7 days apart, two in a room more than the cooldown, and no UTC day exceeds its maximum |
| EngagementBounds.CampaignBounded | src/rosetta/pilot.py:928-963 | over any run a campaign adds at most four posts per day of its length to a room, at most the daily maximum, inside its window, at least the minimum interval apart |
| EngagementCampaign.OneRoomPolled | src/rosetta/persistence.py:400-452 | in the window a room's new slot gains its row exactly if a post is free by the day, the replies and the posts of the room, and is sent exactly if its row is there; the text is that of slot and place |
| EngagementBounds.UsesKeep | src/rosetta/persistence.py:350-452 | both tables keep their bounds while replies, polls and cut-off polls interleave |
| DeliveryKeys.KeysDiffer | src/rosetta/engagement.py:43 | no two replies, posts, acknowledgements, results or other sends share a delivery key, over the client's room names and the requests' ids |
| DeliveryKeys.OthersAreProper | src/rosetta/service.py:190-268 | offers, rejections, announcements and presence go under keys of other kinds |
| PublicWrites.EveryRecordHasItsPurpose | src/rosetta/pilot.py:858-963 | over every run of polls, recoveries, sends, faults and deaths, each own record in the log is for exactly one purpose, the tables know of it, and no other record is for it |
| PublicWrites.OneResultPerRequest | src/rosetta/service.py:363-368 | over every run, all results of a request in the log are one record |
| PublicWrites.PublicRepliesBounded | src/rosetta/persistence.py:350-398 | over every run, the log holds no more replies reserved on one UTC day than the daily maximum |
| PublicWrites.PublicRepliesSpaced | src/rosetta/persistence.py:350-398 | over every run, two replies in the log to one author were reserved more than 7 days apart, and two in one room more than the cooldown |
| PublicWrites.PublicAcksBounded | src/rosetta/persistence.py:194-264 | over every run, the log holds no more acknowledgements of one UTC day's requests than the global quota |
| PublicWrites.PublicPostsBounded | src/rosetta/persistence.py:400-452 | over every run, a room's log holds no more posts reserved on one UTC day than its maximum |
| IsoTime.IsoOrderIsTime | src/rosetta/persistence.py:374-386 | two stored times compare as text exactly as they compare in time, with and without microseconds |
| IsoTime.DatesPass | src/rosetta/persistence.py:425-440 | the calendar order of year, month and day is the order of days |
| StoredTimes.MidnightIsDayStart | src/rosetta/persistence.py:374 | a time cut to midnight is the start of its day |
| StoredTimes.TimesAreTheCalendar | src/rosetta/persistence.py:379-386 | a moved time is a time exactly while it stays in the years 1 to 9999 |
| StoredTimes.RepliesAsTimes | src/rosetta/persistence.py:366-397 | on the rows as stored, with windows compared as text, the reply transaction decides and writes exactly what it does on times |
| StoredTimes.PostsAsTimes | src/rosetta/persistence.py:415-451 | and so does the post transaction, its day's end and interval included |
| Jobs.JobLifecycle | src/rosetta/pilot.py:734-779 | over every run of polls and recoveries with deaths, every job has its request row, a job accepted or running has no result, a complete one has, and no stored result changes |
| Jobs.RecoveryCompletes | src/rosetta/pilot.py:770-779 | a recovery without mishap, in any order, completes every pending job with its result and leaves none |
| Jobs.ExecutionEnds | src/rosetta/pilot.py:742-768 | an execution cut off after its first mark leaves the job pending, so the next recovery lists it; one that raises leaves it failed; only one that stored its result completes |
| Jobs.RecoveryInTwo | src/rosetta/pilot.py:770-779 | a recovery ends with the first job that does not complete |
| Jobs.ServedRight | src/rosetta/service.py:291-372 | with nothing going wrong a request is executed and has its result exactly if it is newly accepted or known with its content and without one; a known one needs no reply |
| Jobs.UnsentReply | src/rosetta/service.py:326-340 | a request whose reply cannot be sent is not passed, and if it was accepted its job waits |
| Jobs.ExecuteKeeps | src/rosetta/pilot.py:734-768 | one execution, cut off anywhere or failing anywhere, keeps all that and touches no other job |
| Pilot.PilotRuntime.Execute | src/rosetta/pilot.py:734-768 | the job is running first, then complete together with its stored result, and failed if anything raised, as far as the process lived; it reports completion only with the result stored |
| Pilot.PilotRuntime.Recover | src/rosetta/pilot.py:770-779 | recovery executes the pending jobs in the order they are listed, up to the first that does not complete, and touches no other |
| Pilot.PilotRuntime.ServeOne | src/rosetta/pilot.py:858-870 | the cursor moves past a record only once its request is answered, refused or no request; a raise or a death before that leaves it |
| Pilot.PilotRuntime.ServeRequests | src/rosetta/pilot.py:858-870 | the cursor stands on the last record served before the first that raised |
| Pilot.PilotRuntime.ReadGenerationSafe | src/rosetta/pilot.py:1015-1028 | a recreated room's cursor is back at zero under the new generation and the records are its first; otherwise the cursor stays |
| Pilot.ReadStartsAtCursor | src/rosetta/pilot.py:1015-1028 | the records read are exactly the next ones after the cursor that is left in the store |
| Pilot.PilotRuntime.PollEngagementRoom | src/rosetta/pilot.py:880-926 | afterwards the checkpoint stands at the end of a room that is new or ran ahead, otherwise on the last record handled; a completed poll reports as many replies as the table gained |
| Pilot.PilotRuntime.PollProactive | src/rosetta/pilot.py:928-963 | a poll reserves room by room and sends the template of its slot and place wherever a reservation is granted, stops at the first send that raises, and reports as many posts as the table gained |
| MailboxRuns.MailboxInOrder | src/rosetta/pilot.py:858-870 | over every run of growth, recreation, recoveries and polls cut off anywhere, what the cursor has passed is the room's first records in order, each tried when it was next and passed once, and the next read starts right after |
| MailboxRuns.NoRequestLost | src/rosetta/pilot.py:1015-1028 | whatever request the cursor has passed has a result if the book then held its key with its content, and had its rejection sent if not; nothing later takes the result away |
| MailboxRuns.PollPassesAll | src/rosetta/pilot.py:858-870 | from any reachable state a poll in which nothing goes wrong passes every record it reads, up to a hundred more of the log |
| MailboxRuns.PollIsCurrent | src/rosetta/pilot.py:1015-1028 | a poll ends on the room that is there, and starts its cursor over exactly if that room was recreated since the last |
| EngagementRuns.EngagementInOrder | src/rosetta/pilot.py:880-926 | over every run, what was handled or skipped since activation or recreation is the room's records from there on, in order, each once, and the checkpoint stands right after |
| EngagementRuns.NextPoll | src/rosetta/pilot.py:889-925 | from any reachable state a poll skips all that is ahead exactly if the room was recreated or its newest record lies more than a hundred above the checkpoint, and otherwise handles the next records in order, to the end unless a send raises, it dies, or records come after its read |
| EngagementRuns.WholePoll | src/rosetta/pilot.py:889-925 | a poll of these runs that sees everything and is not cut off is the pilot's poll |
| Polling.PollHandlesEverything | src/rosetta/pilot.py:889-925 | of the same room, its newest record at most a hundred above the checkpoint, a poll handles the log from its checkpoint on without gap or repeat, and the checkpoint stands right after |
| Polling.SentAreReserved | src/rosetta/pilot.py:904-926 | a completed batch has sent as many replies as the table gained rows |
| Polling.BatchIsWhole | src/rosetta/pilot.py:889-903 | a batch of a hundred holds every newer record when the sequences span at most a hundred |
| Polling.StartingOverSkips | src/rosetta/pilot.py:900-903 | a recreated room, or one whose newest record is more than a hundred ahead, moves the checkpoint to the end and answers nothing |
| Polling.OneRecordPolled | src/rosetta/pilot.py:904-926 | a new record is passed over unless it is an opportunity whose reply is there or free by the day's count, the author's week and the room's cooldown; then its row is gained if new, it is sent, counted and passed exactly if the send goes through |
| Polling.HandledInTwo | src/rosetta/pilot.py:904-926 | a batch is handled as its two parts one after the other, if the first goes through |
| Polling.AdapterReceivesInOrder | src/rosetta/adapters.py:71-81 | over posts, bounded reads, saves and restores with no read in between, an adapter receives the room's records in order, no gap, no repeat |
| Polling.FixtureAdapter.ReadRoom | src/rosetta/adapters.py:71-81 | a read returns the next hundred records and moves the cursor to the last of them |
| Polling.FixtureAdapter.Restore | src/rosetta/adapters.py:140-148 | a restored adapter has the cursors and confirmations that were saved |
| Polling.FixtureAdapter.ConfirmOnce | src/rosetta/adapters.py:150-156 | a correlation id is confirmed once |
| Polling.FixtureAdapter.PostSigned | src/rosetta/adapters.py:83-138 | the method signs once and tries at most twice, as specified |
| AdapterPosting.OnePostOneRecord | src/rosetta/adapters.py:83-138 | every signed post appends exactly one record whatever one-shot faults wait, and returns it exactly unless its reply was lost in a room of a hundred records or more |
| AdapterPosting.SettledFinds | src/rosetta/adapters.py:121-137 | after a lost reply the record is found exactly if the room fits one read |
| EvolutionEngines.EvolutionEngine.Promote | src/rosetta/evolution.py:546-623 | promotion changes nothing before every check has passed, the package's change files among them, and then writes backups, record, files and record in that order, up to where it stops or dies |
| EvolutionEngines.EvolutionEngine.VerifyChanges | src/rosetta/evolution.py:723-735 | the change files are compared with the mutated paths and then one by one with their contents |
| EvolutionEngines.EvolutionEngine.Rollback | src/rosetta/evolution.py:625-659 | rollback undoes item by item, refusing a file that drifted |
| EvolutionEngines.EvolutionEngine.Check | src/rosetta/evolution.py:573-588 | the preflight finds the bytes each mutation writes and replaces, or the first reason to refuse |
| EvolutionPaths.PreflightChecks | src/rosetta/evolution.py:573-588 | a passed preflight means every change file was read, created paths are free, and replaced files hold what was found |
| EvolutionPaths.VerifiedExactly | src/rosetta/evolution.py:723-735 | the changes of a package are accepted exactly if they are the mutations' contents under their paths and no two mutations share one |
| EvolutionPaths.VerifiedIsReady | src/rosetta/evolution.py:573-588 | so of a verified candidate no path is a directory of another |
| EvolutionRefusals.RefusedExactly | src/rosetta/evolution.py:552-588 | a promotion is refused exactly if a verdict is, the package does not hold the mutations, a record is there, a created path exists or a replaced path is not a file of the digest it was evaluated on; and then the disk is unchanged |
| EvolutionRefusals.RollbackExactly | src/rosetta/evolution.py:625-659 | a rollback is refused exactly without approval or record; otherwise, with steps enough, it completes exactly if no file was edited since, taking back what was promoted and nothing else; an edited file is never touched and stops it |
| EvolutionSafety.PromotionCutAnywhere | src/rosetta/evolution.py:552-623 | a refused promotion changes nothing; one cut off anywhere either left every file alone or left a record and backups that undo it, and never runs again over its own record |
| EvolutionSafety.RollbackCompletes | src/rosetta/evolution.py:590-659 | after a promotion cut off anywhere and any rollbacks cut off anywhere, one rollback with a step for each mutation and one more completes, and every file is as it was |
| EvolutionInstall.PromotionFinishes | src/rosetta/evolution.py:590-623 | a promotion that passed its checks and is not cut off finishes exactly if no file of the project is where a created path needs a directory; then every mutated path holds its new content, every other what it held, and the record says applied |
| EvolutionInstall.FileInTheWay | src/rosetta/evolution.py:573-623 | for every file and every path below it, a promotion of a candidate that creates the path passes every check and then stops |
| EvolutionInstall.FixtureInTheWay | src/rosetta/evolution.py:263-289 | fixtures/evolution/a and fixtures/evolution/a/x are such a case, in the part of the tree the source digest passes over |
| EvolutionPackage.StageThenVerify | src/rosetta/evolution.py:508-735 | a staged package whose documents read back as written verifies to its own root exactly if no covered path has a line break and no two clash, and is refused otherwise |
| EvolutionPackage.RefusedPackage | src/rosetta/evolution.py:664-694 | the package of a file beside a directory of its name is refused as if a file had been added or removed |
| EvolutionPackage.RootDeterminesPackage | src/rosetta/evolution.py:661-735 | two packages that verify to one root have the same documents and the same change files byte for byte, even those the checksums leave out |
| EvolutionPackage.ApprovedRootBinds | src/rosetta/evolution.py:546-623 | whatever package verifies to an approved root, promotion does the same to every disk up to every cut |
| EvolutionPackage.WitnessIsOrdinary | src/rosetta/evolution.py:292-302 | docs/a/x.md and docs/a.md are two such paths, both safe |
| EvolutionPackage.ChangesAreTree | src/rosetta/evolution.py:723-730 | if no file of a package lies inside another, its change files are a tree |
| SealAcceptance.SealAccepted | src/rosetta/evolution.py:662-703 | a package's seal is accepted exactly if its checksums list its covered files under safe paths, none clash, and the root of the listing is signed as a proposal |
| SealAcceptance.PackageAccepted | src/rosetta/evolution.py:704-735 | and the package exactly if also its documents agree and its change files are their mutations' |
| Candidate.ValidateCandidate | src/rosetta/evolution.py:310-335 | accepted exactly within the limits and without a fault, with the first error named otherwise, and the risk is that of the riskiest path in any order |
| Candidate.SafeIsProper | src/rosetta/evolution.py:292-302 | a path is safe exactly if every component is a proper name and none has a backslash |
| Candidate.CoversByComponent | src/rosetta/evolution.py:305-307 | a prefix, whatever slashes it ends in, covers a path exactly if its components begin it |
| Candidate.AcceptedReach | src/rosetta/evolution.py:310-329 | a mutation is accepted exactly if it lies inside the project, below an allowed prefix, at or below no protected path, is text, and carries a digest exactly if it replaces |
| Base58.B58Encode | src/rosetta_signer/did.py:23-30 | the loop computes the positional numeral with its leading zeros, and "1" for no bytes |
| Base58.B58Decode | src/rosetta_signer/did.py:33-41 | the loop computes the bytes of the numeral's value, or refuses a foreign character |
| Base58.DecodeEncode | src/rosetta_signer/did.py:23-41 | decoding inverts encoding exactly on non-empty byte strings |
| Base58.EncodeDecode | src/rosetta_signer/did.py:23-41 | encoding inverts decoding exactly on non-empty texts over the alphabet |
| Base58.MinimalByteLength | src/rosetta_signer/did.py:40 | the byte length computed from the bit length is the least that holds the number |
| Base58.DidShapeAndRoundTrip | src/rosetta_signer/did.py:54-67 | every 32-byte key has a DID of the client's shape, did:key:z6Mk and 44 characters, and it gives the key back |
| Base58.DidIsUnique | src/rosetta_signer/did.py:60-67 | every accepted DID is the one its key is written as |
| Base64Url.DecodeOfEncode | src/rosetta_signer/did.py:44-51 | decoding inverts encoding on every byte string, whose text has four characters for three bytes, rounded up |
| Base64Url.EncodeOfDecode | src/rosetta_signer/did.py:44-51 | encoding inverts decoding on exactly the URL-safe texts whose dropped bits are zero |
| Base64Url.SextetBits | src/rosetta_signer/did.py:44-45 | the characters carry the bits of the data in order, then zeros, as section 4 of RFC 4648 says |
| Base64Url.ShapeIsEncoding | src/rosetta/technocore_client.py:25 | the client's signature pattern takes exactly the encodings of 64 bytes |
| Base64Url.SignaturesEncode | src/rosetta/technocore_client.py:25 | 64 bytes always encode to that shape, and no two texts of it decode alike |
| EventChain.Build | src/rosetta/evidence.py:29-46 | the loop builds a chain that checks out and tells of exactly the given events |
| EventChain.HeadDeterminesChain | src/rosetta/evidence.py:29-46 | the last event hash determines the whole chain |
| EventChain.HeadDeterminesEvents | src/rosetta/evidence.py:29-46 | two event lists with one last hash agree in length and in every redacted event |
| Bundle.BundleEntries | src/rosetta/evidence.py:49-56 | the listing is the same for every order the directory is walked in |
| Bundle.OneListing | src/rosetta/evidence.py:49-56 | a directory has only one listing of its covered files in path order |
| Bundle.ParseRender | src/rosetta/evidence.py:112-135 | reading the checksum file back gives the entries it was written from |
| Bundle.Verify | src/rosetta/evidence.py:129-147 | the method accepts and refuses bundles as specified, whatever the order of the walk |
| Bundle.BuildThenVerify | src/rosetta/evidence.py:110-147 | a sealed bundle verifies to its own root exactly if no two covered paths clash, and is refused otherwise |
| Bundle.BuiltVerifiesExactly | src/rosetta/evidence.py:110-147 | a bundle of any files verifies exactly if no two covered paths clash and none has a line break |
| SealAcceptance.BundleAccepted | src/rosetta/evidence.py:129-147 | any bundle is accepted exactly if its checksums list its covered files, none clash, and the root of the listing is attested under the artifact domain by the attestation's signer |
| SealAcceptance.ReadExactly | src/rosetta/evidence.py:130-137 | a checksum file is read through exactly if every line is some file's digest and path |
| Bundle.RootDeterminesFiles | src/rosetta/evidence.py:59-147 | two bundles that verify to one root have the same covered files byte for byte |
| BundleLayout.BundleDirectory.Build | src/rosetta/evidence.py:64-126 | an empty directory is filled with the fixed layout and sealed; any other is left alone |
| BundleLayout.BuiltBundleVerifies | src/rosetta/evidence.py:64-147 | every built bundle whose ids have no slash and no line break verifies to its root, which covers all its files |
| BundleLayout.LayoutIs | src/rosetta/evidence.py:74-118 | a built bundle has the run, the matrix, the summary, three files for every cell, and no other |
| BundleLayout.LayoutHolds | src/rosetta/evidence.py:76-104 | they hold the cell's evidence, reproduction and command |
| BundleLayout.CoveredByName | src/rosetta/evidence.py:49-56 | only files named checksums.txt or attestation.json, wherever they lie, are left out of a listing |
| BundleLayout.SlashedIdsClash | src/rosetta/evidence.py:76-77 | with a slash in an id a built bundle can clash |
| Orders.PathLeByCharacter | src/rosetta/evidence.py:51 | comparing paths by component is comparing characters with the slash before all others |
| Orders.OrdersDisagree | src/rosetta/evidence.py:60 | path order and text order disagree on two paths exactly if they clash where one has a slash |
| Orders.SortFixes | src/rosetta/evidence.py:138 | sorting changes nothing exactly if the list is sorted |
| Outbound.ExactlyTheProducible | src/rosetta/engagement.py:133-179 | the outbound check accepts exactly the replies and posts the templates can produce |
| Outbound.OwnTextsPass | src/rosetta/engagement.py:133-153 | every text the pilot writes over a plain https host passes the check |

## Left out

- Delivery.ReliableMessenger.SendText: the HTTP client between messenger and log is a plan of faults per post (a 429, a refusal before or after the record landed, a lost request, a lost reply); timeouts, redirects and response parsing are not modelled.
- DeliverySafety.RunKeeps: posts by others are made under other DIDs; two processes sharing one signing key are not part of the model.
- Signer.SignaturesOverSameBytes: signatures are ideal and texts are character sequences, so Ed25519 and UTF-8 are assumed injective; a nonce above 2^63-1 is refused as SQLite refuses it. The events keep the payload itself where the program keeps its hash.
- Canonical.SweepIdempotent: the character categories are those the swept ranges of Unicode 15.0 need, not a full table.
- Jobs.JobLifecycle: it is not claimed that every accepted job completes; the completion text carries the current time, so a re-run after a death can end in a delivery key conflict. Stored results are texts that are never empty, as the program's JSON results are.
- PublicWrites.EveryRecordHasItsPurpose: rooms, request ids and roots are of the form the client and the contracts demand; each event begins a send, which other events carry on or end, so one process is one of the interleavings.
- EngagementBounds.CampaignBounded: limits and policy are fixed over a run; a campaign under a new policy starts a new count.
- StoredTimes.RepliesAsTimes: the moved bounds are given as times; arithmetic that leaves the years 1 to 9999 raises in the program.
- Pilot.PilotRuntime.PollEngagementRoom: reads the log once for the records and the last sequence; in the runs of EngagementRuns records may arrive between the two. The text of a reply is not part of it.
- MailboxRuns.MailboxInOrder: a read and the question for the generation are one step, so a room recreated between them is not modelled; nor is one without a generation that is recreated.
- EngagementRuns.EngagementInOrder: the same holds of the engagement poll's read and generation.
- Polling.AdapterReceivesInOrder: the adapter's list of events is not modelled, and a room is not recreated while an adapter reads it.
- EvolutionEngines.EvolutionEngine.Promote: one write is one step, so a file half written when the process dies, directories made only in part, and symbolic links are not modelled; the gate and the package's seal, identity and lineage are one verdict before its change files are looked at (`EvolutionPackage.PromotedPackage` puts the package's own verification there); approval, evaluation, parent digests and policy are one after. A project and a package are trees: no file lies inside another.
- EvolutionSafety.RollbackCompletes: directories a promotion made stay; the theorem is about files.
- EvolutionRefusals.RollbackExactly: about records that name no path twice, as every promotion writes them.
- EvolutionPackage.StageThenVerify: what the candidate's, evaluation's and lineage's documents say, and whether they agree, is a given function of their bytes; a listing that names checksums.txt or attestation.json itself is refused at once, the program refuses it one check later.
- Candidate.ValidateCandidate: whether the content is canonical base64 is given with each mutation.
- Bundle.Verify: a listed path that names a file in another spelling, such as "./run.json", is refused at once; the program refuses it later with another message. The printing of JSON is not modelled; manifests are hashed by an injective function.
- BundleLayout.BundleDirectory.Build: the bytes of each file are given; which files there are, their names and their order of writing are modelled, name limits of the file system are not.
- Outbound.ExactlyTheProducible: the regular expressions are modelled as the literal texts and character classes they consist of.
- `run_roundtrip`, discovery offers, service cards, presence, `redact`, `classify`, the observer, health files and publishing: single-branch checks, text rules or input and output.
- `reserve_run` as all-or-nothing: it spends the daily slot before it checks the budget.
- The HTTP target and proxies, egress, the Docker tools, release packaging, the site and the command lines: plumbing.
