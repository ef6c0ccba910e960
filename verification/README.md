# Verta in Dafny

Verta is a mail server: SMTP reception and submission, an outbound queue with
pacing, recipient routing with SRS, Maildir storage, and IMAP and POP3 access.
This project models the parts of it in which behaviour spans many calls, and
proves what holds over all inputs, all runs or all reachable states.

* **Mailbox numbering** (`MaildirFlags`, `UidList`, `Maildir`, `MailboxRuns`,
  `FlagRuns`, `Appending`, `ImapView`, `ImapExamples`, `SeqSet`): a folder of files
  and a persisted UID list, refreshed, flagged, expunged and appended to by any
  number of sessions. UIDs are never given to two messages in any run, and flags
  written are the flags shown until they are written again. An IMAP client
  that applies the `EXISTS` and `EXPUNGE` responses it is sent holds the server's
  sequence-to-UID list exactly as long as every poll meets a change that a larger
  count can tell.
* **Outbound queue and limits** (`QueueStore`, `Scheduler`, `DeliveryHistory`,
  `Pace`, `PaceRules`, `RateLimit`, `AuthGuard`, `Governor`, `Reputation`):
  conservation of envelopes over every run, what became of each by what the
  transport answered, all-or-nothing token reservation, admission bounds over
  every interval, pruning that no caller can observe, verdicts that do not depend
  on map iteration order.
* **Routing and SRS** (`Routing`, `RoutingProofs`, `RoutingMeaning`,
  `RoutingExamples`, `SrsScheme`, `Bounces`): the depth-first expansion against
  reachability by a relation on the configuration's own fields, the address
  rewriter against its inverse, and a bounce from RCPT back to the original sender.
* **SMTP** (`SmtpSession`, `SmtpDelivery`, `SmtpTransactions`, `SmtpProgress`): the
  command state machine over every command sequence, what each reply after DATA
  stands for, where transactions end, and what an orderly client achieves.
* **Text layers** (`LineEndings`, `Wildcard`, `ImapParser`, `BodyStructure`,
  `StructureClient`): printers against parsers and readers, a backtracking matcher
  against its declarative meaning.

`Text`, `Seqs`, `InsertionSort` and `Runs` hold shared definitions: string
functions of the original's standard library, ordered sequences and `sort.Slice`,
the sort by swaps, and induction over runs of a transition system.

Objects whose methods update fields are classes (`Maildir.Mailbox`,
`Scheduler.SchedulerService`, `Pace.Throttle`, `SmtpSession.Session`, ...). Each
method is proved against a function or relation on plain values, and the lemmas
are about those. Whatever the program asks of the outside (clock, store, network,
backend, map iteration order) is a parameter or an arbitrary choice.

`dafny verify dfyconfig.toml` checks the whole project.

## Where the code and the expectation differ

Each of these is a lemma of the model, with the exact condition where there is one.

* A poll reports only a changed count. It leaves the client with the server's
  list exactly when no message of the snapshot has left and no numbered message
  it does not show lies below one it shows (`ImapView.PollExactly`); a replacement
  between two polls goes unseen (`ImapExamples.ReplacementUnseen`).
* EXPUNGE takes a flagged file that another session has renamed for removed. The
  client loses the numbering at the next poll exactly when such a message lies
  below a kept one (`ImapView.ExpungeExactly`, `ImapExamples.RenamedReturns`).
* The persisted UID list reads back exactly when no base name holds LF or ends in
  CR (`UidList.RoundTripExactly`) and its UIDNEXT is not zero (`UidList.ReadableExactly`).
* UIDVALIDITY is minted anew at every refresh until a list is on disk
  (`MailboxRuns.MintedExactly`), and ends with the refresh that brings the 32-bit
  counter to its end (`MailboxRuns.ValidityEndsExactly`). Past that end UIDs in use
  come again (`MailboxRuns.ReusedExactly`, `MailboxRuns.WrapReuses`).
* Append reports the newest message. That is certainly the appended one exactly
  when all files that wait for a UID are strictly older, and possibly exactly when
  none is strictly newer (`Appending.AppendReportsExactly`, `Appending.TieExample`).
* The depth cap of routing loses destinations more than ten edges away
  (`RoutingProofs.FarIsLost`, `RoutingExamples.LongChainIsLost`) and also nearer
  ones whose address is first met at depth ten (`RoutingExamples.NearIsLost`).
* An SRS address that has been lower-cased on its way reverses exactly when its
  hash has no upper-case letter (`SrsScheme.LowerCasedReversal`), so a bounce comes
  home exactly then (`Bounces.BounceComesHome`).
* The waiting time of a refused reservation is truncated and may be a nanosecond
  short (`Pace.TruncationBites`). Two pacing scopes can share a bucket under
  different limits exactly when a destination holds `|` (`Pace.BarExactly`).
* 250 after DATA stands for a delivery exactly when no plan is empty and no plan
  with remote addresses lacks the forward hook (`SmtpDelivery.AcceptedExactly`). It
  speaks for every recipient exactly when there is at most one, or none that could
  fail (`SmtpDelivery.SpeaksForAllExactly`).
* RETR loses a lone CR at the end of the header or body part
  (`LineEndings.RetrExactly`) and adds two empty lines to a message without a separator.
* 4294967295 in a sequence set is taken for `*` (`SeqSet.SpanExactly`).
* Decay toward the baseline needs a day without events: a sequence of events
  decays not at all exactly when each comes within a day of the last or finds the
  score at the baseline (`Reputation.DecaysExactly`), although the documentation
  promises decay over time.
* The warm-up cap is asked before the body and counted after delivery. It holds
  exactly when no second message passes the gate before the first is counted
  (`Reputation.CapExactly`); subjects that nothing gates pass any cap
  (`Reputation.UngatedPasses`).

## Model

| member | source | states |
|---|---|---|
| `MaildirFlags.RenameKeepsBase` | internal/maildir/flags.go:54-59 | a name rebuilt with any flags keeps its base name |
| `MaildirFlags.FlagsRoundTrip` | internal/maildir/flags.go:34-59 | flags written into a file name are the flags read from it |
| `MaildirFlags.AddAdds` | internal/maildir/flags.go:72-96 | Add gives a canonical set with exactly that flag more |
| `UidList.HeaderRoundTrip` | internal/maildir/mailbox.go:272-300 | the header line gives back validity and next UID, except that a zero next UID is taken for corrupt |
| `UidList.RoundTrip` | internal/maildir/mailbox.go:272-345 | reading a written list gives the same map, validity and next UID |
| `UidList.RoundTripExactly` | internal/maildir/mailbox.go:272-345 | it does so if and only if every name is clean (no LF inside, no CR at its end) |
| `UidList.ReadableExactly` | internal/maildir/mailbox.go:288-300 | a written list can be read, under its validity, if and only if its next UID is not zero |
| `UidList.Write` | internal/maildir/mailbox.go:316-345 | the written text encodes exactly the map, in UID order |
| `Maildir.Scan` | internal/maildir/mailbox.go:178-208 | each visible file once, oldest first, whatever order the directory yields |
| `Maildir.NumberUnknown` | internal/maildir/mailbox.go:209-217 | unknown names are numbered in scan order with 32-bit wrap-around; dirty exactly if there is one |
| `Maildir.BuildMessages` | internal/maildir/mailbox.go:219-239 | one message per file under its listed UID, in UID order, numbered from 1 |
| `Maildir.PrunedList` | internal/maildir/mailbox.go:242-250 | the rewritten list holds exactly the names that still have a message |
| `Maildir.Mailbox.Open` | internal/maildir/mailbox.go:87-99 | a fresh mailbox value after one refresh |
| `Maildir.Mailbox.Refresh` | internal/maildir/mailbox.go:170-252 | the new snapshot and list are a refresh of the folder's old content |
| `Maildir.Mailbox.SetFlags` | internal/maildir/mailbox.go:350-366 | file renamed under its base name and the one message updated, or nothing changed when the file is gone |
| `Maildir.Mailbox.Expunge` | internal/maildir/mailbox.go:371-394 | exactly the flagged messages leave folder and snapshot, the rest is renumbered, their numbers come highest first |
| `Maildir.Mailbox.Append` | internal/maildir/mailbox.go:398-422 | delivers, refreshes and reports the last message |
| `MailboxRuns.AssignNumbers` | internal/maildir/mailbox.go:209-217 | known names keep their UID, unknown ones get consecutive UIDs from UIDNEXT |
| `MailboxRuns.FreshExactly` | internal/maildir/mailbox.go:209-217 | new UIDs all lie at or above the old UIDNEXT if and only if the batch does not run past the end of the 32-bit counter |
| `MailboxRuns.SoundExactly` | internal/maildir/mailbox.go:209-217 | they are fresh and UIDNEXT lies above them if and only if the batch stays below that end; exactly at the end UIDNEXT becomes zero |
| `MailboxRuns.ReusedExactly` | internal/maildir/mailbox.go:209-217 | a UID in use is issued again if and only if the batch runs past the end by more than that UID |
| `MailboxRuns.WrapReuses` | internal/maildir/mailbox.go:209-217 | an input on which the counter wraps onto a UID in use |
| `MailboxRuns.RefreshList` | internal/maildir/mailbox.go:170-252 | the list left on disk: every present name under its number, nothing else, the reported validity and next UID |
| `MailboxRuns.RefreshBox` | internal/maildir/mailbox.go:170-252 | every message shown has its UID issued to its own name, below UIDNEXT |
| `MailboxRuns.StepKeeps` | internal/maildir/mailbox.go:170-422 | deliveries, flag renames, removals and refreshes keep the numbering invariant and take back no UID |
| `MailboxRuns.OneNamePerUid` | internal/maildir/mailbox.go:170-345 | in any run, a UID shown twice names the same message and lies below every later UIDNEXT |
| `MailboxRuns.PresentKeepsUid` | internal/maildir/mailbox.go:170-366 | in any run, a message that stays keeps its UID through flag changes, prunes and reopens |
| `MailboxRuns.ValidityStable` | internal/maildir/mailbox.go:242-252 | UIDVALIDITY never changes once a list is on disk |
| `MailboxRuns.ValidityEndsExactly` | internal/maildir/mailbox.go:242-300 | a refresh keeps the validity for the next reader if and only if it does not bring the counter exactly to its end; after that one the list starts over from UID 1 |
| `MailboxRuns.MintedExactly` | internal/maildir/mailbox.go:272-300 | it depends on the moment of the refresh exactly until a readable list exists |
| `MailboxRuns.SnapshotAscends` | internal/maildir/mailbox.go:234-238 | sequence order is strictly ascending UID order in every reachable snapshot |
| `MailboxRuns.LastIsNewest` | internal/maildir/mailbox.go:209-238 | the last message is the last name numbered and carries UIDNEXT - 1 |
| `Appending.AppendReportsExactly` | internal/maildir/mailbox.go:398-422 | Append reports the appended message for certain if and only if every waiting file is strictly older, and possibly if and only if none is strictly newer |
| `Appending.TieExample` | internal/maildir/mailbox.go:206-208 | a folder where two files of equal time leave both answers open |
| `Appending.RefreshExists` | internal/maildir/mailbox.go:170-252 | over every scan that does not exhaust the UIDs a refresh is possible |
| `MailboxRuns.AppendOnOpened` | internal/maildir/mailbox.go:398-422 | on a just-opened mailbox Append reports the old UIDNEXT |
| `FlagRuns.FlagsMean` | internal/maildir/flags.go:34-51 | a name has a flag if and only if its letter is a known one behind the first separator; each once, in the fixed order |
| `FlagRuns.ShownFlags` | internal/maildir/mailbox.go:219-239 | every message a refresh shows has exactly the flags of its file name, is recent if and only if the file lies in new/, and has the file's size and time |
| `FlagRuns.DeletedByName` | internal/maildir/mailbox.go:371-394 | an expunge right after a refresh takes exactly the visible files with a T behind the separator |
| `FlagRuns.FlagsStick` | internal/maildir/mailbox.go:350-366 | in any run, flags written are the flags every later refresh shows, without the recent mark, until the file is renamed again |
| `FlagRuns.StoreShows` | internal/maildir/mailbox.go:350-366 | after STORE and any refresh the message with that UID has exactly those flags and is not recent, if and only if its file was still there under the known name |
| `FlagRuns.AlwaysCoherent` | internal/maildir/mailbox.go:170-394 | in every session, flags and recent mark of every message shown are those of its file name, after any refreshes, stores and expunges |
| `FlagRuns.RecentIsNew` | internal/imap/session.go:438-472 | the RECENT number is the number of visible files in new/ |
| `FlagRuns.AppendedFlags` | internal/maildir/mailbox.go:398-422 | an appended message is shown with exactly the flags given, recent if and only if there are none |
| `ImapView.ReplayWithTail` | internal/imap/session.go:654-670 | applying descending EXPUNGE numbers to a client list, with newer messages behind it, removes exactly the flagged ones |
| `ImapView.PrefixExactly` | internal/maildir/mailbox.go:170-252 | a refresh keeps the old UID list as a prefix if and only if no message of it has left and no numbered file it does not show lies below one it shows |
| `ImapView.PollExactly` | internal/imap/session.go:736-750 | after a poll or an announcement the client's list is the server's if and only if that is so |
| `ImapView.ExpungeExactly` | internal/maildir/mailbox.go:371-394 | after an expunge that is still so if and only if every flagged message renamed meanwhile has a UID above every kept one |
| `ImapView.EventExactly` | internal/imap/session.go:438-750 | every command and every delivery, rename, removal or refresh by others keeps the snapshot a correct numbering; the change stays announceable if and only if the event is harmless |
| `ImapView.ViewExactly` | internal/imap/session.go:654-750 | a client in step stays in step, except at polls and announcements of a change that is not announceable |
| `ImapView.FollowsExactly` | internal/imap/session.go:654-750 | in every run, whatever others do, the client has held the server's list all along if and only if every poll and announcement met an announceable change |
| `ImapView.ClientFollowsServer` | internal/imap/session.go:654-750 | in every run of harmless events (foreign deliveries, renames and refreshes included) the client's list is the session's after every event and every response is legal |
| `ImapView.HarmShows` | internal/imap/session.go:654-750 | after any event that is not harmless the next poll leaves the client with another list |
| `ImapExamples.ReplacementUnseen` | internal/imap/session.go:736-750 | one removal and one arrival between two polls: nothing is reported and the lists differ |
| `ImapExamples.RenamedReturns` | internal/maildir/mailbox.go:371-394 | a flagged message marked seen by another session: EXPUNGE is sent, the file stays, the next poll brings its UID back below a kept one |
| `ImapView.ImapSession.CmdSelect` | internal/imap/session.go:438-472 | SELECT and EXAMINE open the folder and announce its count |
| `ImapView.ImapSession.PollAndReport` | internal/imap/session.go:736-750 | refreshes and announces the count exactly when it changed |
| `ImapView.ImapSession.CmdExpunge` | internal/imap/session.go:654-670 | refuses when read-only, otherwise expunges and sends the numbers highest first; list, validity and UIDNEXT stay |
| `ImapView.ImapSession.CmdClose` | internal/imap/session.go:640-652 | expunges silently unless read-only and deselects; the list stays |
| `ImapView.ImapSession.AnnounceAppend` | internal/imap/session.go:672-732 | refreshes the selected mailbox and announces its count |
| `ImapView.ImapSession.FinishMove` | internal/imap/fetch.go:454-513 | flags the chosen messages and expunges every flagged one, earlier flagged ones included; on a lost file it stops with the flags set so far; snapshot, files and list in both cases |
| `SeqSet.SetText` | internal/imap/parse.go:201-235 | every written sequence set is read as its ranges |
| `SeqSet.ParseSeqSet` | internal/imap/parse.go:201-235 | the parsing loop accepts and rejects exactly what the grammar says |
| `SeqSet.IsIn` | internal/imap/parse.go:239-256 | true exactly when some range holds the number after resolving its ends |
| `SeqSet.Selected` | internal/imap/fetch.go:16-38 | the loop returns the filtered snapshot, in UID or sequence mode |
| `SeqSet.SelectionMeaning` | internal/imap/fetch.go:16-38 | in order, exactly the messages between the resolved ends of some written span |
| `SeqSet.SpanExactly` | internal/imap/parse.go:226-256 | a span is read as the standard reads it if and only if 4294967295 does not meet an end other than `*` and 1 |
| `SeqSet.OrderIsIrrelevant` | internal/imap/parse.go:201-224 | a:b and b:a are the same range, `*` included |
| `SeqSet.StarSelectsLast` | internal/imap/fetch.go:16-38 | a set naming `*` selects the last message, which has the highest number |
| `SeqSet.SelectsByMode` | internal/imap/fetch.go:16-38 | by number the i-th message answers to i and `*` to the count; by UID each answers to its UID and `*` to the last one's |
| `Routing.Resolver.Resolve` | internal/routing/routing.go:77-135 | the mutating recursion computes the expansion of an address |
| `Routing.Resolver.Targets` | internal/routing/routing.go:137-150 | bare targets belong to the referring domain, blank ones are skipped |
| `RoutingMeaning.RoutesMean` | internal/routing/routing.go:88-135 | what one address contributes, by the configuration fields: its mailbox unless it forwards and keep_local is false, its forwards in either case, a non-empty alias before SRS and catch-all, catch-all only with none of them, a foreign domain as it stands |
| `RoutingMeaning.TargetReads` | internal/routing/routing.go:137-150 | a target written as an address is that address, one without @ a local part of the referring domain |
| `RoutingMeaning.PlanIsSound` | internal/routing/routing.go:50-150 | every destination is one the configuration leads to from the recipient within 10 edges |
| `RoutingMeaning.PlanIsComplete` | internal/routing/routing.go:50-150 | without a chain of more than 10 distinct addresses the plan is exactly the mailboxes the configuration delivers to and the addresses it sends to |
| `RoutingProofs.PlanHasNoRepeats` | internal/routing/routing.go:77-135 | no mailbox twice, and apart from reversed SRS addresses no remote address twice |
| `RoutingProofs.CapIsIdle` | internal/routing/routing.go:78-86 | without a simple path of more than 10 edges the depth cap never fires |
| `RoutingProofs.ResolveCompletes` | internal/routing/routing.go:77-150 | the recursion then leaves the visited set closed under the routing edges |
| `RoutingProofs.FarIsLost` | internal/routing/routing.go:78-86 | a mailbox reachable only beyond 10 edges is not in the plan |
| `RoutingExamples.ChainPlan` | internal/routing/routing.go:77-150 | in every configuration, a recipient whose first target starts a chain of ten edges, and whose others are its end, is refused |
| `RoutingExamples.LongChainIsLost` | internal/routing/routing.go:78-86 | an input with a mailbox eleven edges away, refused as unknown |
| `RoutingExamples.NearIsLost` | internal/routing/routing.go:78-86 | an input with a mailbox two edges away, refused because its alias is first met at depth ten |
| `SrsScheme.WindowExactly` | internal/srs/srs.go:100-122 | a timestamp is valid if and only if the day difference modulo 1024 is 0..21 or 1023 |
| `SrsScheme.ReverseUndoesForward` | internal/srs/srs.go:52-122 | Reverse gives back the sender exactly inside that window, `=` in local parts included |
| `SrsScheme.OnlySignedReverses` | internal/srs/srs.go:69-98 | whatever reverses carries the keyed hash over the timestamp, domain and local part it reverses to, with a timestamp inside the window |
| `SrsScheme.EqualsInDomain` | internal/srs/srs.go:69-90 | a sender domain with `=` is never given back |
| `SrsScheme.BadForwardDomain` | internal/srs/srs.go:52-90 | nor is anything under a forward domain that is empty or holds `@` |
| `SrsScheme.LowerCasedReversal` | internal/srs/srs.go:69-98 | the lower-cased address reverses to the lower-cased sender if its hash has no upper-case letter and the day is in the window, and to nothing otherwise |
| `Bounces.BounceComesHome` | internal/routing/routing.go:119-124 | a bounce to the rewritten sender, lower-cased by RCPT, is routed to the original sender and nowhere else under that condition, and refused otherwise |
| `QueueStore.SortedIsStableSort` | internal/queue/queue.go:143-149 | the insertion sort gives a permutation by creation time that keeps the order of ties |
| `InsertionSort.SortInPlace` | internal/queue/queue.go:143-149 | the swaps in the slice compute repeated insertion |
| `InsertionSort.Sink` | internal/queue/queue.go:143-149 | one inner loop moves one element to where it belongs and nothing else |
| `QueueStore.FilterInPlace` | internal/queue/queue.go:71-82 | the filter that reuses the slice's storage keeps exactly the due envelopes in order |
| `QueueStore.DueFromListing` | internal/queue/queue.go:71-82 | Due is exactly the envelopes not scheduled after now, each once, oldest first |
| `QueueStore.Queue.Due` | internal/queue/queue.go:71-82 | the method returns that sequence and leaves the store alone |
| `QueueStore.Queue.Earliest` | internal/queue/queue.go:85-95 | the minimum over exactly the envelopes Due leaves out |
| `Scheduler.BackoffIsCapped` | internal/queue/scheduler.go:211-220 | the clamped shift is min(2^(n-1), 240) minutes for every n >= 1 |
| `Scheduler.SchedulerService.AttemptOne` | internal/queue/scheduler.go:137-205 | one delivery attempt moves the envelope, counters and store as the ledger says |
| `Scheduler.SchedulerService.Process` | internal/queue/scheduler.go:127-135 | one pass attempts each due envelope once |
| `Scheduler.StepKeeps` | internal/queue/scheduler.go:137-205 | enqueues, pass starts and attempts keep every envelope in exactly one place with attempts below the maximum |
| `Scheduler.PassKeeps` | internal/queue/scheduler.go:127-205 | so does a whole pass under any transport behaviour |
| `Scheduler.NothingIsLost` | internal/queue/scheduler.go:127-205 | in every run each envelope is queued, delivered once or bounced once, with at most the maximum of transport calls |
| `Scheduler.Conservation` | internal/queue/scheduler.go:127-205 | delivered + bounced + queued = enqueued |
| `Scheduler.RetriesLieAhead` | internal/queue/scheduler.go:137-220 | what stays queued is scheduled later: by at least a millisecond and without counting an attempt when paced, by the backoff otherwise |
| `DeliveryHistory.DeliveredExactly` | internal/queue/scheduler.go:164-171 | in every run an envelope counts as delivered if and only if an earlier attempt of it was accepted |
| `DeliveryHistory.RefusedExactly` | internal/queue/scheduler.go:173-183 | it is bounced at once if and only if an earlier attempt of it was refused for good |
| `DeliveryHistory.ExhaustedExactly` | internal/queue/scheduler.go:185-196 | it is bounced as given up if and only if its maxAttempts-th temporary failure has come, paced rounds not counted |
| `DeliveryHistory.AttemptIsDue` | internal/queue/scheduler.go:127-135 | no attempt in any run comes before the envelope is due |
| `DeliveryHistory.AttemptsRest` | internal/queue/scheduler.go:137-220 | between two attempts lies the wait of pacing, or min(2^(n-1), 240) minutes after the n-th failure; after a final answer there is none |
| `DeliveryHistory.LettersUnchanged` | internal/queue/scheduler.go:137-205 | sender, recipient and creation time of a queued envelope never change |
| `Pace.ScopesAreDistinct` | internal/pace/pace.go:127-157 | no delivery meets the same bucket twice |
| `Pace.KeyDeterminesLimit` | internal/pace/pace.go:58-157 | a bucket is used under one limit as long as no destination holds the separator bar |
| `Pace.BarCollides` | internal/pace/pace.go:127-157 | a configuration where a bar in a destination makes two limits share a bucket |
| `Pace.BarExactly` | internal/pace/pace.go:127-157 | deliveries to a destination share no bucket under another limit, in any configuration, if and only if it holds no bar |
| `Pace.ReservedSettles` | internal/pace/pace.go:167-224 | every bucket after a reservation, refilled and charged by 1 or 0 |
| `Pace.AllOrNothing` | internal/pace/pace.go:167-205 | one token from every applicable bucket, or every lazily refilled level unchanged at every later time |
| `Pace.ReservedBounded` | internal/pace/pace.go:167-224 | levels stay within 0 and burst |
| `Pace.RateBound` | internal/pace/pace.go:167-224 | any interval of length T admits at most burst + rate * T per bucket |
| `Pace.ConfiguredRateBound` | internal/pace/pace.go:127-224 | the same for the deliveries of one configuration, the limit of each bucket derived from it |
| `Pace.RetryExactly` | internal/pace/pace.go:167-205 | a lone retry succeeds if and only if the missing tokens have flowed in everywhere |
| `Pace.RetrySucceeds` | internal/pace/pace.go:185-200 | any longer wait than the returned one is enough |
| `Pace.TruncationBites` | internal/pace/pace.go:185-200 | the truncated wait itself can be too short |
| `Pace.Throttle.Reserve` | internal/pace/pace.go:167-205 | the two-pass method computes the reservation and the longest wait, at least a millisecond on refusal |
| `PaceRules.ApplicableExactly` | internal/pace/pace.go:58-157 | the buckets of a delivery are exactly those of the deciding rules: mailbox before domain before global, the named destination before `*`, and the egress address |
| `PaceRules.NamedShields` | internal/pace/pace.go:58-69 | where rulesets name the destination, changing or removing their `*` entries changes no answer, wait or bucket |
| `PaceRules.MailboxShields` | internal/pace/pace.go:127-150 | with a matching mailbox rule no change of domain or global rules does |
| `PaceRules.DomainShields` | internal/pace/pace.go:127-150 | with a matching domain rule no change of global rules does |
| `PaceRules.NamedRateBound` | internal/pace/pace.go:58-205 | a destination with an entry of its own is admitted within that entry's rate over every interval |
| `RateLimit.PruningIsUnobservable` | internal/ratelimit/ratelimit.go:45-80 | pruning at arbitrary moments gives the answers of never pruning |
| `RateLimit.LimiterIsPlain` | internal/ratelimit/ratelimit.go:45-80 | the limiter with its own pruning rule answers as the plain bucket |
| `RateLimit.AdmissionBound` | internal/ratelimit/ratelimit.go:45-71 | at most limit * (1 + T / window) admissions per key in any interval of length T |
| `RateLimit.BurstExactly` | internal/ratelimit/ratelimit.go:45-71 | a key that is new or idle for a window is admitted exactly limit times at once |
| `RateLimit.Limiter.AllowOne` | internal/ratelimit/ratelimit.go:45-71 | refills, prunes when large, takes a token or refuses |
| `RateLimit.Limiter.DropFull` | internal/ratelimit/ratelimit.go:73-80 | removes exactly the buckets that would be full |
| `AuthGuard.PruningIsUnobservable` | internal/auth/guard.go:37-91 | pruning changes no Blocked answer and no delay, ever |
| `AuthGuard.FailuresCount` | internal/auth/guard.go:47-75 | the counter after a series of failures |
| `AuthGuard.LocksExactly` | internal/auth/guard.go:37-75 | a key is blocked if and only if the failures reached the maximum and the lockout since the last has not passed |
| `AuthGuard.DelayDoubles` | internal/auth/guard.go:47-75 | the delay is 250 ms at first and doubles up to 4 s |
| `AuthGuard.SuccessForgets` | internal/auth/guard.go:77-82 | after a success the key is free, its next failure counts as the first, and no other key is touched |
| `AuthGuard.QuietForgets` | internal/auth/guard.go:47-62 | a failure more than twice the lockout after the last counts as the first |
| `AuthGuard.Guard.IsLocked` | internal/auth/guard.go:37-45 | answers whether the lockout lies ahead |
| `AuthGuard.Guard.RecordFailure` | internal/auth/guard.go:47-75 | counts, locks at the maximum and returns the growing delay |
| `AuthGuard.Guard.RecordSuccess` | internal/auth/guard.go:77-82 | forgets the key |
| `AuthGuard.Guard.DropStale` | internal/auth/guard.go:85-91 | removes exactly the entries without effect |
| `Governor.VerdictExactly` | internal/ratelimit/governor.go:170-200 | allowed if and only if every applicable bucket has a token |
| `Governor.AllowedTakesOne` | internal/ratelimit/governor.go:170-200 | an allowed message takes one token from each applicable bucket and none elsewhere |
| `Governor.AtMostOneEach` | internal/ratelimit/governor.go:170-200 | allowed or not, no bucket is charged twice, however often a domain repeats |
| `Governor.OrderIsIrrelevant` | internal/ratelimit/governor.go:170-200 | verdict and, when allowed, levels are the same for every iteration order of the dimensions |
| `Governor.OverrideShields` | internal/ratelimit/governor.go:68-79 | a value with its own rule never touches the generic bucket |
| `Governor.LastRuleWins` | internal/ratelimit/governor.go:97-147 | the installed limit of a value is that of the last rule that decides it |
| `Governor.AskedExactly` | internal/ratelimit/governor.go:44-200 | a message asks a bucket if and only if it bears the value and the last rule for it, or failing any such rule the last generic one, sets that limit in this direction |
| `Governor.GovernorService.AllowValue` | internal/ratelimit/governor.go:68-79 | asks the bucket the compiled rules name |
| `Governor.GovernorService.AllowRecipients` | internal/ratelimit/governor.go:175-195 | asks once for each distinct recipient value |
| `Governor.GovernorService.MsgAllowed` | internal/ratelimit/governor.go:170-200 | asks the dimensions in the given order and stops at the first refusal |
| `SmtpSession.StepKeeps` | internal/smtp/session.go:146-450 | every command keeps: recipients imply MAIL, MAIL implies HELO, a user implies TLS, submission senders are the user, inbound has no relay, recipients within the maximum |
| `SmtpSession.SessionIsSafe` | internal/smtp/session.go:91-450 | these hold in every state of every session |
| `SmtpSession.RoutingLeads` | internal/routing/routing.go:62-66 | a found plan is never empty |
| `SmtpSession.NoOpenRelay` | internal/smtp/session.go:395-410 | in no inbound session is anything queued for a named recipient |
| `SmtpSession.SubmissionActsForUser` | internal/smtp/session.go:322-363 | submission acts only over TLS, for an authenticated user, under that address |
| `SmtpSession.DataReplyIsHonest` | internal/smtp/session.go:452-612 | in every session with the forward hook, DATA is answered 250 if and only if something was stored, forwarded, queued or discarded |
| `SmtpSession.TransactionHistory` | internal/smtp/session.go:146-450 | an open transaction has an accepted MAIL after a HELO since the last STARTTLS, and its recipients are exactly the RCPTs accepted since |
| `SmtpSession.AuthHistory` | internal/smtp/session.go:219-267 | a user was granted by an AUTH over TLS and has not changed since |
| `SmtpSession.Session.CmdHelo` | internal/smtp/session.go:152-185 | sanitized name stored and transaction reset, or refused |
| `SmtpSession.Session.CmdStartTls` | internal/smtp/session.go:187-215 | TLS set and state reset, or refused, or connection closed |
| `SmtpSession.Session.CmdAuth` | internal/smtp/session.go:219-320 | the user stored exactly on a granted answer |
| `SmtpSession.Session.CmdMail` | internal/smtp/session.go:322-365 | the sender stored exactly on 250 |
| `SmtpSession.Session.CmdRcpt` | internal/smtp/session.go:367-450 | one recipient added exactly on 250, with its plan or as a relay |
| `SmtpSession.Session.CmdData` | internal/smtp/session.go:452-613 | reply, effects and reset of each way DATA can end |
| `SmtpTransactions.CommandsEnd` | internal/smtp/session.go:146-215 | in every session RSET, a greeting, STARTTLS and a DATA whose body was read leave no sender and no recipient |
| `SmtpTransactions.OneDeliveryEach` | internal/smtp/session.go:452-612 | between two deliveries of a session lies an accepted MAIL, and the later one goes to exactly the recipients accepted after it |
| `SmtpTransactions.DeliveredMeansAllowed` | internal/smtp/session.go:452-565 | nothing is delivered but within the size limit, past every limit and rule, and not rejected by screening |
| `SmtpTransactions.AcceptedMeansAllowed` | internal/smtp/session.go:367-450 | every accepted recipient is within the maximum, past limits and rules, and known wherever its domain is hosted |
| `SmtpTransactions.PathReads` | internal/smtp/server.go:228-252 | an address written between brackets behind the keyword is read back with its parameters |
| `SmtpTransactions.SizeReads` | internal/smtp/server.go:255-266 | a declared size is read back if and only if it fits 63 bits |
| `SmtpTransactions.MailAcceptedExactly` | internal/smtp/session.go:322-365 | greeted and idle, the inbound port accepts a MAIL line with a size if and only if it is within the limit |
| `SmtpTransactions.RcptAcceptedExactly` | internal/smtp/session.go:367-450 | in an open transaction with room it accepts a RCPT line if and only if the domain is hosted and the address has a route, both in lower case |
| `SmtpTransactions.PlainReads` | internal/smtp/session.go:270-296 | an AUTH PLAIN response names its user |
| `SmtpTransactions.LoginReads` | internal/smtp/session.go:298-320 | an AUTH LOGIN dialogue names its user |
| `SmtpProgress.InboundDelivers` | internal/smtp/session.go:91-612 | a client that greets, names a sender and any number of hosted recipients up to the maximum has its message delivered to exactly those, in order |
| `SmtpProgress.SubmissionDelivers` | internal/smtp/session.go:91-612 | a user over STARTTLS and AUTH PLAIN has it delivered to the hosted recipients and queued for the others, under the user's own address |
| `SmtpDelivery.TemporaryMeansNothingDone` | internal/smtp/session.go:565-612 | after 451 or 452 no copy was stored, forwarded or queued for anyone |
| `SmtpDelivery.AcceptedExactly` | internal/smtp/session.go:620-690 | 250 stands for a delivery whatever fails, if and only if plans are non-empty and forwards have a hook |
| `SmtpDelivery.OneAcceptsForAll` | internal/smtp/session.go:565-612 | one accepting recipient hides the failed ones |
| `SmtpDelivery.SpeaksForAllExactly` | internal/smtp/session.go:565-612 | 250 means that every recipient was accepted, whatever fails, if and only if there is at most one or none that could fail |
| `SmtpDelivery.DoneExactly` | internal/smtp/session.go:565-690 | something is stored, discarded, queued or forwarded if and only if some recipient's answers call for it |
| `SmtpDelivery.ReplyExactly` | internal/smtp/session.go:565-675 | 250 if and only if some recipient was served, 452 if and only if none was and one met only full mailboxes, 451 otherwise |
| `SmtpDelivery.DeliverPlan` | internal/smtp/session.go:620-675 | verdict and effects of one recipient's plan |
| `SmtpDelivery.DeliverAll` | internal/smtp/session.go:565-612 | the reply and all effects of the delivery loop |
| `LineEndings.CanonMeaning` | internal/smtp/session.go:784-803 | no bare LF in the result, same lines, idempotent, unchanged exactly when already canonical |
| `LineEndings.CanonIsUnique` | internal/smtp/session.go:784-803 | it is the only canonical text with those lines |
| `LineEndings.EnsureCrlf` | internal/smtp/session.go:784-803 | fast path and rewriting path compute the same |
| `LineEndings.ReceiveUndoesStuffing` | internal/pop3/pop3.go:407-415 | a client undoing the stuffing gets the lines back and stops at the real terminator |
| `LineEndings.WriteDotted` | internal/pop3/pop3.go:402-428 | header and body lines, stuffed, and the terminator |
| `LineEndings.RetrMeaning` | internal/pop3/pop3.go:402-450 | what a client holds after RETR, for every message |
| `LineEndings.RetrExactly` | internal/pop3/pop3.go:402-450 | it is the stored message plus one CRLF if and only if neither part ends in a lone CR |
| `LineEndings.RetrWithoutSeparator` | internal/pop3/pop3.go:402-406 | without a separator it is the message plus three CRLF |
| `LineEndings.TopIsPrefix` | internal/pop3/pop3.go:416-475 | TOP delivers a prefix of RETR with exactly the asked number of body lines |
| `Wildcard.Match` | internal/imap/session.go:524-556 | true if and only if the name can be cut into one piece per pattern character |
| `Wildcard.MatchPattern` | internal/imap/session.go:513-522 | that, or equality up to case |
| `ImapParser.QuoteRoundTrip` | internal/imap/parse.go:111-134 | a quoted string followed by anything is read back unchanged |
| `ImapParser.WireRoundTrip` | internal/imap/parse.go:70-176 | every printed nesting of strings, words and groups is read back and nothing after it touched |
| `ImapParser.LiteralRoundTrip` | internal/imap/parse.go:136-156 | {n} is read as exactly the n bytes the connection yields, and refused when too large or without a connection |
| `ImapParser.QuoteText` | internal/imap/parse.go:259-270 | the loop computes the quoted form |
| `ImapParser.Parser.NextToken` | internal/imap/parse.go:70-86 | result and new position are the grammar's, failures included |
| `ImapParser.Parser.ParseList` | internal/imap/parse.go:158-176 | the same for lists |
| `ImapParser.Parser.ParseQuoted` | internal/imap/parse.go:111-134 | the same for quoted strings |
| `ImapParser.Parser.ParseAtom` | internal/imap/parse.go:96-109 | the same for atoms |
| `ImapParser.Parser.ParseLiteral` | internal/imap/parse.go:136-156 | the same for literals |
| `BodyStructure.StructureRoundTrip` | internal/imap/mime.go:97-137 | the printed structure of any part tree is read as one token and fully consumed |
| `BodyStructure.ReadingShowsChildren` | internal/imap/mime.go:97-110 | its leading lists are the children, recursively, followed by the subtype |
| `BodyStructure.StructureExactly` | internal/imap/mime.go:97-137 | two trees print alike if and only if they agree in everything the structure reports |
| `StructureClient.ClientSees` | internal/imap/mime.go:97-137 | a client reading the printed text by the positions of RFC 3501 learns every part's types, parameters, encoding, bytes, lines and disposition |
| `BodyStructure.OrderIsIrrelevant` | internal/imap/mime.go:229-249 | sorted keys are the same for every map iteration order |
| `BodyStructure.SortStrings` | internal/imap/mime.go:253-259 | the swaps give the strings in increasing order, a permutation of the old ones |
| `BodyStructure.ParamList` | internal/imap/mime.go:229-249 | the printed parameters, keys in increasing order, NIL for none |
| `BodyStructure.Disposition` | internal/imap/mime.go:128-137 | the printed disposition |
| `BodyStructure.Structure` | internal/imap/mime.go:97-124 | the recursive rendering writes the described nesting |
| `Reputation.LagBelowOnePoint` | internal/reputation/reputation.go:100-126 | under any polling the score lags exact decay by less than one point, is never ahead of it and never crosses 50 |
| `Reputation.BusyNeverDecays` | internal/reputation/reputation.go:129-146 | with an event within every day the score moves by events alone |
| `Reputation.LookMoves` | internal/reputation/reputation.go:109-117 | a look moves the score if and only if a day has passed and it is off the baseline, and by exactly the time passed or the distance left |
| `Reputation.DecayAt` | internal/reputation/reputation.go:100-146 | over a sequence of events, the gaps of a day or more decay by their length as far as there is distance, the others not at all |
| `Reputation.DecaysExactly` | internal/reputation/reputation.go:100-146 | a sequence of events does not decay if and only if each gap is below a day or meets the baseline |
| `Reputation.RampIsSound` | internal/reputation/reputation.go:228-247 | the daily limit is monotone in age, between Day1 and Full, and meets its anchors |
| `Reputation.RampIsLinear` | internal/reputation/reputation.go:228-247 | between its anchors the limit is the straight line, rounded down |
| `Reputation.EventsMove` | internal/reputation/reputation.go:45-53 | bounce, complaint, blacklisting and anomaly lower every score above the bottom, delivery and login raise every one below the top |
| `Reputation.NextDayAllows` | internal/reputation/reputation.go:118-126 | a day after its count began a subject at its cap may send again; before that exactly while below the limit |
| `Reputation.ScoresStayInRange` | internal/reputation/reputation.go:100-146 | scores lie in 0..100 in every run |
| `Reputation.OvershootBound` | internal/reputation/reputation.go:251-263 | with gate and count apart and at most m messages under way, a subject never counts more than m - 1 deliveries above its cap, in every run |
| `Reputation.OvershootReached` | internal/reputation/reputation.go:251-263 | for every m a run that reaches exactly that |
| `Reputation.CapExactly` | internal/reputation/reputation.go:251-263 | the cap holds in all runs with at most m messages under way if and only if m is at most 1 |
| `Reputation.UngatedPasses` | cmd/verta/main.go:724-727 | deliveries counted without the gate, as for users, pass the cap |
| `Reputation.Store.Get` | internal/reputation/reputation.go:100-126 | decay and day rollover of one record |
| `Reputation.Store.RecordEvent` | internal/reputation/reputation.go:129-146 | decay, then the clamped event and its counters |
| `Reputation.Store.AllowSend` | internal/reputation/reputation.go:251-263 | allowed exactly below the limit of the subject's age |

## Left out

- Sockets, TLS handshakes, timeouts, IDLE timing, logging and goroutines: I/O only.
- Races inside one operation: refreshes, renames and removals by any number of sessions interleave as whole steps.
- Messages shared by reference between snapshot and session: a snapshot is a sequence of values, so aliasing of messages is not captured.
- File operations that fail for other reasons than a missing file, and partial writes.
- Case folding beyond ASCII, and multi-byte characters: a text is a sequence of characters.
- Floating-point rounding: token levels, scores and times are exact numbers.
- `strconv` and base64 details that no branch depends on: AUTH lines arrive decoded, message numbers of POP3 parsed.
- HMAC and password hashing are uninterpreted functions or answers.
- Filters, file owners and home directories in routing plans.
- Governor.RcptAllowed: the recipient stage asks single buckets like `Governor.GovernorService.AllowValue`.
- POP3 commands other than RETR and TOP: DELE, RSET, STAT and QUIT would add easy members.
- IMAP FETCH items, SEARCH, STORE syntax, section addressing and partial slicing.
- The building of part trees from raw messages: `BodyStructure` starts from a finished tree.
- Configuration loading, antispam, DKIM, DNS lists, the HTTP API and the status page.
- MailboxRuns.StepKeeps: runs stop short of the end of the 32-bit UID counter; `MailboxRuns.SoundExactly`, `MailboxRuns.ReusedExactly` and `MailboxRuns.ValidityEndsExactly` say what happens there.
- RoutingMeaning.PlanIsComplete: the hypothesis on simple paths is sufficient only; whether a longer path does harm depends on the order in which addresses are first met.
- Reputation.RampIsSound: takes Day1 <= Day7 <= Full, which the configuration check (internal/config/config.go:779-786) guarantees.
- SmtpSession.SessionIsSafe: settings and backend stay the same during a session, although the program reloads them.
