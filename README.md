# MessageDataService, modelled in Dafny

This project models the message data service of the ProtonMail iOS client,
`MessageDataService`. The service keeps the local copy of the mailbox in
step with the server. The model covers these parts of it:

- **Local mutations.** A message's label relation, its unread
  flag and the per-label unread counters change as `mark`, `label`,
  `move`, `remove(labels:)` and `delete` change them, with a decrement
  clamped at zero and the self-sent peer label counted alike.
- **The write queue.** The durable queue of `(uuid, target, action, data1,
  data2)` entries, the failed queue, the in-memory read queue, the
  blocked / in-progress / human-check flags and the pending notify
  callback. Covered: where `queue` files an entry, what `dequeueIfNeeded`
  starts, drops or runs, and what the completion block does with each
  outcome. A pure verdict table backs the completion block.
- **The event log.** `processEvents(messages:)` applies the log to the
  cached messages: deletes, the skip rule for cached inserts, the draft
  patch, the label deltas, and the list of ids handed to the metadata
  fetch. `processEvents(counts:)` replaces the counters from a snapshot.
  The `fetchEvents` branches move the event cursor. `fetchMessages`
  records the per-label fetch window.
- **Send-path decisions.** The per-recipient package flags, the
  encryption marker and label move of a sent draft, the reply-status
  flags, the human-check flag and the alerts for failed sends, the
  public-key upload decision, the `empty(at:)` guard, the draft
  create-or-update choice and the `SendStatus` progress set.

Modules:
- `Common`: Option and small sequence helpers.
- `Counters`: the counter store and its clamped steps.
- `Locations`: the location ids and what a user label is.
- `LabelOps`: the local mutations as functions.
- `Outbox`: actions, entry filing, routing and the completion verdict.
- `Drain`: the queue state, the dequeue and the completion as functions.
- `MessageEvents`: the message event log.
- `EventCursor`: the cursor, the count snapshot and the fetch window.
- `SendRules`: the send-path decisions.
- `SendStatus`: the send progress set.
- `Service`: the `Message`, `WriteQueue` and `MessageDataService`
  classes. Their methods edit fields step by step and are proved to
  reach the state the functions above describe. Every method that
  changes the write queue requires and keeps `MessageDataService.Valid()`:
  the queue's uuids are unique and below the next fresh one, which is
  what the `Drain.Complete*` lemmas assume of the queue.

Collaborators outside the file become parameters or abstract values:
- the result of each CoreData save (`saveOk`);
- the Groot JSON merge (an `upsert` function that may produce a record,
  produce nothing, or throw);
- whether a label id is known locally (`known`);
- the outcome of each network request (`Outcome`);
- the latest-event-id answer and the refetch result (`latest`,
  `refetchOk`);
- the credential-cache lock code (`lockCode`);
- the clock (`now`).

Behaviour of the code that the model keeps as written:
- counts from the server are stored verbatim, and only the badge is
  clamped;
- a 500 failure parks the queue head but removes the element by its own
  uuid (`Outbox.ParkMovesHead` shows these agree when the element is
  the head with unique uuids);
- a notify callback handed to a drain whose queues are already empty is
  only stored, and fires at a later drain (`Drain.NotifyDeferred`);
- the draft-counter decrement after a successful send is guarded by the
  unread flag, which the transition has just cleared (line 1639), so it
  never runs; `Service.MessageDataService.CommitSentDraft` leaves that
  call out and does not touch the counters.

## Model

All source paths are `ProtonMail/ProtonMailCommon/DataServices/MessageDataService.swift`.

| member | source | states |
|---|---|---|
| Counters.Bump | ProtonMail/ProtonMailCommon/DataServices/MessageDataService.swift:138-146 | an increment adds exactly one to a non-negative counter, a decrement is clamped at zero (0 stays 0), and every other label's counter is unchanged |
| Counters.BumpSeqEffect | ProtonMail/ProtonMailCommon/DataServices/MessageDataService.swift:103-114 | stepping all labels of a message moves each of its labels' counters by one clamped step and leaves every other counter alone |
| Counters.BumpSeqNonNegative | ProtonMail/ProtonMailCommon/DataServices/MessageDataService.swift:103-114 | the per-label loop never makes a non-negative store negative |
| Counters.DecBy | ProtonMail/ProtonMailCommon/DataServices/MessageDataService.swift:138-146 | repeated clamped decrements take each counter down by its multiplicity, to no less than zero, and touch no other key |
| Counters.DecByThenBump | ProtonMail/ProtonMailCommon/DataServices/MessageDataService.swift:138-146 | a decrement batch followed by one clamped step on the same key composes as one batch |
| Counters.DecByNone | ProtonMail/ProtonMailCommon/DataServices/MessageDataService.swift:138-146 | an empty batch leaves the counters unchanged |
| Counters.ResetAll | ProtonMail/ProtonMailCommon/DataServices/MessageDataService.swift:2306 | after the reset every counter reads 0 |
| Counters.SnapshotReplaces | ProtonMail/ProtonMailCommon/DataServices/MessageDataService.swift:2306-2314 | after the reset and the entry loop, a counter holds the last `Unread` sent for its label, or 0 when none was sent; entries without `Unread` are skipped |
| Counters.SnapshotIgnoresOldCounts | ProtonMail/ProtonMailCommon/DataServices/MessageDataService.swift:2306-2314 | the result of the snapshot does not depend on the counters before it |
| Counters.SnapshotNonNegative | ProtonMail/ProtonMailCommon/DataServices/MessageDataService.swift:2306-2314 | a snapshot of non-negative values leaves a non-negative store |
| Locations.LocationsAreNotNormal | ProtonMail/ProtonMailCommon/DataServices/MessageDataService.swift:160-163 | no system location id is a user label (non-empty and not all digits), so stripping user labels never strips a location |
| LabelOps.Without | ProtonMail/ProtonMailCommon/DataServices/MessageDataService.swift:153 | removing a label deletes exactly that id and keeps every other, changes nothing when it is absent, and keeps the relation duplicate-free |
| LabelOps.NormalLabels | ProtonMail/ProtonMailCommon/DataServices/MessageDataService.swift:161 | the user labels of a message are exactly its labels that are user labels |
| LabelOps.RemoveAllShape | ProtonMail/ProtonMailCommon/DataServices/MessageDataService.swift:192-202 | the removal loop keeps the unread flag, leaves the labels not listed, and decrements the removed labels and their peers exactly when cleaning unread |
| LabelOps.RemovalDecsCover | ProtonMail/ProtonMailCommon/DataServices/MessageDataService.swift:192-202 | every listed label the message had is decremented by the loop |
| LabelOps.RemovalDecsWithin | ProtonMail/ProtonMailCommon/DataServices/MessageDataService.swift:192-202 | the loop decrements only labels the message had and the list named, or self-sent peers |
| LabelOps.MoveToTrash | ProtonMail/ProtonMailCommon/DataServices/MessageDataService.swift:149-190 | a move to trash of a message that does not already carry trash other than as the source label (a move from trash itself included) ends read; it strips the user labels, starred and all-mail and keeps the others plus trash. An unread message's lost labels are decremented; a read message's counters are unchanged. No counter rises, so trash is not incremented |
| LabelOps.MoveToSpam | ProtonMail/ProtonMailCommon/DataServices/MessageDataService.swift:149-190 | a move to spam of a message that does not already carry spam other than as the source label (a move from spam itself included) strips the same labels, keeps the unread flag, and changes counters only when unread: the source label and its peer go down and spam and its peer go up, while the stripped labels keep their counts |
| LabelOps.MoveToHeldLabel | ProtonMail/ProtonMailCommon/DataServices/MessageDataService.swift:149-190 | a move to a label the message still carries after losing the source label (trash or spam included) adds and strips nothing, keeps the unread flag, and only decrements the source label when unread, because `add` answers nil |
| LabelOps.DeleteEffect | ProtonMail/ProtonMailCommon/DataServices/MessageDataService.swift:205-233 | a delete empties the label relation, keeps the unread flag, and decrements the removed labels only when unread |
| Outbox.ParseAction | ProtonMail/ProtonMailCommon/DataServices/MessageDataService.swift:1869 | a parsed string is the raw string of the action it gives |
| Outbox.ParseActionName | ProtonMail/ProtonMailCommon/DataServices/MessageDataService.swift:1869 | parsing an action's raw string gives the action back |
| Outbox.ActionNameInjective | ProtonMail/ProtonMailCommon/DataServices/MessageDataService.swift:1869 | distinct actions have distinct raw strings |
| Outbox.RemoveId | ProtonMail/ProtonMailCommon/DataServices/MessageDataService.swift:1773 | removing by uuid never lengthens the queue |
| Outbox.RemoveIdMembers | ProtonMail/ProtonMailCommon/DataServices/MessageDataService.swift:1773 | the entries left are exactly the entries with another uuid |
| Outbox.RemoveIdOne | ProtonMail/ProtonMailCommon/DataServices/MessageDataService.swift:1773 | with unique uuids, removing an entry's uuid removes exactly that one entry and keeps the order |
| Outbox.RemoveIdAbsent | ProtonMail/ProtonMailCommon/DataServices/MessageDataService.swift:1773 | removing an unknown uuid changes nothing |
| Outbox.RemoveIdFacts | ProtonMail/ProtonMailCommon/DataServices/MessageDataService.swift:1773 | removal keeps exactly the entries with another uuid and, with unique uuids, cuts out the entry at the position of that uuid |
| Outbox.RemoveDoubleSent | ProtonMail/ProtonMailCommon/DataServices/MessageDataService.swift:1768-1771 | after a send, exactly the queued saves and sends for the same message leave the queue |
| Outbox.QueueTarget | ProtonMail/ProtonMailCommon/DataServices/MessageDataService.swift:1911-1921 | saveDraft, send, read and unread are filed under the object URI; any other action under the message id, and only with a context and a non-empty id |
| Outbox.RouteArguments | ProtonMail/ProtonMailCommon/DataServices/MessageDataService.swift:1873-1898 | folder sends a label request for data2 on the entry's target; label, unlabel and empty carry data1; read and unread send the target with the action's raw string; only the empty actions produce empty requests |
| Outbox.EmptyAt | ProtonMail/ProtonMailCommon/DataServices/MessageDataService.swift:1336-1342 | emptying proceeds exactly for spam, trash and draft |
| Outbox.ClassifyTable | ProtonMail/ProtonMailCommon/DataServices/MessageDataService.swift:1796-1833 | for a queue with a head: 404 removes; 500 without an internet issue parks; 200 with 9001 keeps; 200 with another code above 1000 removes; 200 below 200 without an internet issue removes; 200 from 200 to 1000 keeps; any other status without an internet issue removes; an internet issue at 200 with a code up to 1000 keeps |
| Outbox.InternetIssueKeeps | ProtonMail/ProtonMailCommon/DataServices/MessageDataService.swift:1785-1792 | a network failure (-1009, -1004, -1001 without an HTTP response) has status 200 and always keeps the element queued |
| Outbox.ApplyVerdict | ProtonMail/ProtonMailCommon/DataServices/MessageDataService.swift:1796-1833 | Keep changes no queue. Otherwise exactly the entries with the element's uuid leave; with unique uuids that is the one entry at the element's position, the rest in order. Only Park adds to the failed queue, and what it adds is the queue head |
| Outbox.ParkMovesHead | ProtonMail/ProtonMailCommon/DataServices/MessageDataService.swift:1808-1817 | when the element is the head and uuids are unique, parking moves exactly that entry to the end of the failed queue |
| Drain.Prologue | ProtonMail/ProtonMailCommon/DataServices/MessageDataService.swift:1856-1863 | a given callback is stored and nothing fires; without one, the stored callback fires and is cleared only when both queues are empty |
| Drain.Drain | ProtonMail/ProtonMailCommon/DataServices/MessageDataService.swift:1854-1909 | a drain never touches the failed queue or the flags it does not own; it only shortens the queue and takes no new entry into it; each read block it runs leaves the read queue; it keeps the uuid invariant |
| Drain.DrainRunsPrefix | ProtonMail/ProtonMailCommon/DataServices/MessageDataService.swift:1854-1909 | the read blocks a drain runs are a prefix of the read queue, run in queue order, and the rest stays queued in order |
| Drain.DrainStartsHead | ProtonMail/ProtonMailCommon/DataServices/MessageDataService.swift:1867-1899 | on an open queue a known head action is started with its route and marks the queue busy, and nothing else happens |
| Drain.DrainDropsUnknown | ProtonMail/ProtonMailCommon/DataServices/MessageDataService.swift:1900-1903 | an unknown action string is removed from the queue without starting anything |
| Drain.DrainRunsReads | ProtonMail/ProtonMailCommon/DataServices/MessageDataService.swift:1905-1908 | when no write action can start and the queue is not blocked, every read block runs, first in first out |
| Drain.DrainBlocked | ProtonMail/ProtonMailCommon/DataServices/MessageDataService.swift:1905 | a blocked queue runs no read block |
| Drain.NotifyDeferred | ProtonMail/ProtonMailCommon/DataServices/MessageDataService.swift:1856-1863 | a callback handed over when both queues are empty is stored and does not fire in that drain |
| Drain.NotifyAfterReads | ProtonMail/ProtonMailCommon/DataServices/MessageDataService.swift:1856-1908 | a callback handed over with read blocks pending fires once, after the last of them, and is cleared |
| Drain.NotifyFires | ProtonMail/ProtonMailCommon/DataServices/MessageDataService.swift:1856-1908 | a stored callback fires exactly once when the read queue drains |
| Drain.Add | ProtonMail/ProtonMailCommon/DataServices/MessageDataService.swift:1913-1917 | a new entry with a fresh uuid goes to the end of the queue, keeping uuids unique |
| Drain.ReadRunsWhenIdle | ProtonMail/ProtonMailCommon/DataServices/MessageDataService.swift:1934-1937 | behind an idle, empty write queue a new read block runs at once, after the earlier ones |
| Drain.EnqueueStarts | ProtonMail/ProtonMailCommon/DataServices/MessageDataService.swift:1911-1921 | an action queued on an open, empty queue starts immediately |
| Drain.Complete | ProtonMail/ProtonMailCommon/DataServices/MessageDataService.swift:1759-1846 | a completion does not change the uuid counter, the blocked flag or the human-check flag |
| Drain.CompleteValid | ProtonMail/ProtonMailCommon/DataServices/MessageDataService.swift:1759-1846 | a completion keeps uuids unique and below the next fresh one |
| Drain.CompleteSuccess | ProtonMail/ProtonMailCommon/DataServices/MessageDataService.swift:1762-1774 | a success for a queued element other than a send removes exactly that element, keeps the order of the rest, clears the busy flag and drains |
| Drain.CompleteSendSuccess | ProtonMail/ProtonMailCommon/DataServices/MessageDataService.swift:1768-1774 | after a successful send, the element and every queued save or send of that message are gone, and nothing new was added |
| Drain.Complete404 | ProtonMail/ProtonMailCommon/DataServices/MessageDataService.swift:1796-1805 | a 404 for a queued element removes exactly that element and drains, unless the code is the lock code |
| Drain.Complete500 | ProtonMail/ProtonMailCommon/DataServices/MessageDataService.swift:1808-1817 | a 500 for the head moves it to the end of the failed queue and drains on, unless the code is the lock code |
| Drain.CompleteOffline | ProtonMail/ProtonMailCommon/DataServices/MessageDataService.swift:1835-1843 | a network failure with no runnable read block only clears the busy flag: the element stays queued and nothing starts |
| Drain.CompleteOfflineRetries | ProtonMail/ProtonMailCommon/DataServices/MessageDataService.swift:1835-1843 | after a network failure with a read block pending and the queue not blocked, exactly that block runs and the drain after it restarts the failed head |
| Drain.CompleteHumanCheck | ProtonMail/ProtonMailCommon/DataServices/MessageDataService.swift:1821-1822 | with the human-check flag up, a 9001 failure keeps the queue as it is, starts nothing and parks nothing |
| Drain.AbortedSendGone | ProtonMail/ProtonMailCommon/DataServices/MessageDataService.swift:1393-1397 | a send stopped by its checks has removed its own entry; whatever failure its completion then reports, no entry with that uuid is left |
| MessageEvents.Prepare | ProtonMail/ProtonMailCommon/DataServices/MessageDataService.swift:2004-2009 | an insert drops the unread field for the notification's message, sets status 1 and changes nothing else |
| MessageEvents.PatchTime | ProtonMail/ProtonMailCommon/DataServices/MessageDataService.swift:2019-2031 | a zero or missing time never overwrites the stored time |
| MessageEvents.RemoveLabelsEffect | ProtonMail/ProtonMailCommon/DataServices/MessageDataService.swift:2041-2055 | the removal loop takes away exactly the known removed labels, and clears the body flag exactly when "1" is removed |
| MessageEvents.AddLabelsEffect | ProtonMail/ProtonMailCommon/DataServices/MessageDataService.swift:2057-2065 | the addition loop adds exactly the known added labels |
| MessageEvents.DeleteEvent | ProtonMail/ProtonMailCommon/DataServices/MessageDataService.swift:1988-1996 | a delete removes exactly that id and is a no-op for an unknown id |
| MessageEvents.InsertCachedSkipped | ProtonMail/ProtonMailCommon/DataServices/MessageDataService.swift:1998-2003 | an insert for a cached message that is neither draft nor sent is skipped entirely |
| MessageEvents.DraftPatched | ProtonMail/ProtonMailCommon/DataServices/MessageDataService.swift:2012-2035 | an event at the draft location for a stored status-1 record (an insert only when that record is a draft or sent) changes only its title and a non-zero time |
| MessageEvents.MergedEvent | ProtonMail/ProtonMailCommon/DataServices/MessageDataService.swift:2038-2078 | a merged record gets the label deltas. It is queued for a fetch exactly when at status 0 with an empty subject, and promoted to status 1 when at status 0 with a subject |
| MessageEvents.FailedMerge | ProtonMail/ProtonMailCommon/DataServices/MessageDataService.swift:2079-2095 | an empty or throwing merge queues the payload id and changes no message |
| MessageEvents.UnknownEventIgnored | ProtonMail/ProtonMailCommon/DataServices/MessageDataService.swift:2096-2097 | other action codes are ignored |
| MessageEvents.NoCacheGrows | ProtonMail/ProtonMailCommon/DataServices/MessageDataService.swift:1984-2099 | the follow-up fetch list only grows along the loop |
| MessageEvents.DeleteIdempotent | ProtonMail/ProtonMailCommon/DataServices/MessageDataService.swift:1988-1996 | applying a delete twice equals applying it once |
| MessageEvents.FinishIdempotent | ProtonMail/ProtonMailCommon/DataServices/MessageDataService.swift:2041-2078 | applying the label deltas and the status rule a second time changes nothing, and queues for a fetch only what the first pass queued |
| MessageEvents.Upsert1Twice | ProtonMail/ProtonMailCommon/DataServices/MessageDataService.swift:2012-2095 | running the insert or update branch twice with one payload, under a stable merge, changes no message the second time and queues no new id |
| MessageEvents.UpsertIdempotent | ProtonMail/ProtonMailCommon/DataServices/MessageDataService.swift:1997-2095 | applying the same insert or update event twice, under a stable merge, equals applying it once for the messages; the follow-up list gains no new id |
| MessageEvents.DeletesOnly | ProtonMail/ProtonMailCommon/DataServices/MessageDataService.swift:1985-1996 | a log of deletes leaves none of those ids, keeps the other messages, and queues nothing |
| EventCursor.ProcessCounts | ProtonMail/ProtonMailCommon/DataServices/MessageDataService.swift:2301-2321 | an absent or empty snapshot changes nothing and sets no badge; otherwise each counter ends as the server's last value for it or 0, whatever it was before, and the badge is the server's inbox count clamped at zero |
| EventCursor.Inserts | ProtonMail/ProtonMailCommon/DataServices/MessageDataService.swift:390-395 | the reported events are exactly the inserts |
| EventCursor.CursorOnlyOnSuccess | ProtonMail/ProtonMailCommon/DataServices/MessageDataService.swift:347-426 | the cursor moves only after a successful refetch, saved events, or a success code; otherwise the sync state is unchanged; only a full refresh with a usable latest id wipes, with badge 0 |
| EventCursor.ReportedInserts | ProtonMail/ProtonMailCommon/DataServices/MessageDataService.swift:375-398 | only inserts are reported, and only when the events saved |
| EventCursor.ContactsOnly | ProtonMail/ProtonMailCommon/DataServices/MessageDataService.swift:371-373 | a contacts-only refresh changes nothing here |
| EventCursor.RefreshCodeNeedsError | ProtonMail/ProtonMailCommon/DataServices/MessageDataService.swift:352 | code 18001 forces a full refresh only when the check failed |
| EventCursor.RecordWindow | ProtonMail/ProtonMailCommon/DataServices/MessageDataService.swift:263-274 | start and total are set only for a new window; the update stamp is now; other windows are untouched; a trap is None |
| EventCursor.WindowEnd | ProtonMail/ProtonMailCommon/DataServices/MessageDataService.swift:268-270 | the end is the last message's time when it has one, else the previous end |
| SendRules.FindContact | ProtonMail/ProtonMailCommon/DataServices/MessageDataService.swift:1492 | a found contact is in the list with that address; none found means none has it |
| SendRules.FindContactFirst | ProtonMail/ProtonMailCommon/DataServices/MessageDataService.swift:1492 | of several contacts with the address, the earliest in the list is found |
| SendRules.Address | ProtonMail/ProtonMailCommon/DataServices/MessageDataService.swift:1492-1503 | the three package-flag cases: internal pinned, other pinned, no contact |
| SendRules.BuildAddresses | ProtonMail/ProtonMailCommon/DataServices/MessageDataService.swift:1487-1507 | the recipients are built exactly when every lookup was fulfilled, one per lookup |
| SendRules.BuildAddressesAt | ProtonMail/ProtonMailCommon/DataServices/MessageDataService.swift:1487-1503 | the i-th address is the one built from the i-th lookup |
| SendRules.BuildAbortsAtFirst | ProtonMail/ProtonMailCommon/DataServices/MessageDataService.swift:1504-1505 | the first rejected lookup aborts with its code |
| SendRules.EncryptionOf | ProtonMail/ProtonMailCommon/DataServices/MessageDataService.swift:1620-1633 | outEnc iff EO and outside user; outPlain iff not EO and outside user; inner otherwise |
| SendRules.MarkReply | ProtonMail/ProtonMailCommon/DataServices/MessageDataService.swift:1710-1742 | 0 sets replied, 1 replied-all, 2 forwarded; without an id, an action or the message nothing changes |
| SendRules.MarkReplyIdempotent | ProtonMail/ProtonMailCommon/DataServices/MessageDataService.swift:1720-1728 | marking raises at most one flag, lowers none, and marking twice equals once |
| SendRules.AlertFor | ProtonMail/ProtonMailCommon/DataServices/MessageDataService.swift:1657-1665 | an error answer shows the sent-error toast for 9001 and 15198 and the generic toast otherwise; a thrown error shows the detailed alert |
| SendRules.SendGuard | ProtonMail/ProtonMailCommon/DataServices/MessageDataService.swift:1400-1434 | the send proceeds exactly with a found message with an id, in a context, with credentials; otherwise, in that order of checks, the bad-parameter, bad-draft or lock error |
| SendRules.ShouldUploadPubKey | ProtonMail/ProtonMailCommon/DataServices/MessageDataService.swift:1170-1182 | the key is uploaded iff some fulfilled lookup has recipient type 2 |
| SendRules.DraftRequestFor | ProtonMail/ProtonMailCommon/DataServices/MessageDataService.swift:1118 | update iff the body was downloaded and the id is not "0" |
| SendStatus.Position | ProtonMail/ProtonMailCommon/DataServices/MessageDataService.swift:1371-1388 | every stage has a bit below 18 |
| SendStatus.PositionInjective | ProtonMail/ProtonMailCommon/DataServices/MessageDataService.swift:1371-1388 | distinct stages have distinct bits |
| SendStatus.Insert | ProtonMail/ProtonMailCommon/DataServices/MessageDataService.swift:1367-1389 | inserting only adds the given stage |
| SendStatus.InsertRaw | ProtonMail/ProtonMailCommon/DataServices/MessageDataService.swift:1367-1389 | inserting a new stage adds its bit to the raw value, and an old one adds nothing, so the raw value only grows |
| SendStatus.RawValueInjective | ProtonMail/ProtonMailCommon/DataServices/MessageDataService.swift:1367-1389 | the raw value determines the set of stages |
| SendStatus.JustStartRaw | ProtonMail/ProtonMailCommon/DataServices/MessageDataService.swift:1370 | justStart has raw value 0 |
| Service.Message.Add | ProtonMail/ProtonMailCommon/DataServices/MessageDataService.swift:159 | `add` answers the id iff it was absent, and then appends it |
| Service.Message.Remove | ProtonMail/ProtonMailCommon/DataServices/MessageDataService.swift:153 | `remove` answers the id iff it was present, and the label is gone |
| Service.WriteQueue.AddMessage | ProtonMail/ProtonMailCommon/DataServices/MessageDataService.swift:1913-1917 | the queue state becomes `Drain.Add` of the old one |
| Service.MessageDataService.UpdateCounter | ProtonMail/ProtonMailCommon/DataServices/MessageDataService.swift:138-146 | the store becomes one clamped step of the old one |
| Service.MessageDataService.UpdateCounterOn | ProtonMail/ProtonMailCommon/DataServices/MessageDataService.swift:103-114 | the loop steps every label of the message in order |
| Service.MessageDataService.DequeueIfNeeded | ProtonMail/ProtonMailCommon/DataServices/MessageDataService.swift:1854-1909 | the queue state becomes `Drain.Drain` of the old one; the queue invariant `Valid()` is kept |
| Service.MessageDataService.QueueMessage | ProtonMail/ProtonMailCommon/DataServices/MessageDataService.swift:1911-1921 | the entry is filed where `QueueTarget` says, then the queue drains; the queue invariant `Valid()` is kept |
| Service.MessageDataService.QueueAction | ProtonMail/ProtonMailCommon/DataServices/MessageDataService.swift:1923-1926 | an action without a message is filed under the empty target; the queue invariant `Valid()` is kept |
| Service.MessageDataService.QueueAttachment | ProtonMail/ProtonMailCommon/DataServices/MessageDataService.swift:1928-1932 | an attachment action is filed under the attachment's URI; the queue invariant `Valid()` is kept |
| Service.MessageDataService.QueueRead | ProtonMail/ProtonMailCommon/DataServices/MessageDataService.swift:1934-1937 | the queue state becomes `Drain.EnqueueRead` of the old one; the queue invariant `Valid()` is kept |
| Service.MessageDataService.ApplyFailure | ProtonMail/ProtonMailCommon/DataServices/MessageDataService.swift:1776-1833 | the sequence of status checks edits the queues exactly as the verdict of `Outbox.Classify` says; the queue invariant `Valid()` is kept |
| Service.MessageDataService.Complete | ProtonMail/ProtonMailCommon/DataServices/MessageDataService.swift:1759-1846 | the queue state becomes `Drain.Complete` of the old one, and a successful delete purges the message; the queue invariant `Valid()` is kept |
| Service.MessageDataService.CompleteSucceeded | ProtonMail/ProtonMailCommon/DataServices/MessageDataService.swift:1762-1774 | the success branch of the completion; the queue invariant `Valid()` is kept |
| Service.MessageDataService.CompleteFailed | ProtonMail/ProtonMailCommon/DataServices/MessageDataService.swift:1775-1844 | the failure branch: the verdict, then a drain or one read block; the queue invariant `Valid()` is kept |
| Service.MessageDataService.Mark | ProtonMail/ProtonMailCommon/DataServices/MessageDataService.swift:85-101 | in a context the read or unread action is always queued. It answers true iff the flag changed and the save succeeded, and only then are all the message's counters stepped. The flag ends as asked; the queue invariant `Valid()` is kept |
| Service.MessageDataService.LabelMessage | ProtonMail/ProtonMailCommon/DataServices/MessageDataService.swift:116-136 | the label joins or leaves the relation. Its counter steps when the relation changed and the message is unread. The action is queued only when the save succeeds; the queue invariant `Valid()` is kept |
| Service.MessageDataService.RemoveLabels | ProtonMail/ProtonMailCommon/DataServices/MessageDataService.swift:192-202 | the loop's state is `LabelOps.RemoveAll` of the old one |
| Service.MessageDataService.RemoveCounted | ProtonMail/ProtonMailCommon/DataServices/MessageDataService.swift:153-158 | the first label removal of move and delete is `LabelOps.RemoveOne` |
| Service.MessageDataService.ArriveCounted | ProtonMail/ProtonMailCommon/DataServices/MessageDataService.swift:159-176 | the arrival half of move is `LabelOps.Arrive` |
| Service.MessageDataService.Move | ProtonMail/ProtonMailCommon/DataServices/MessageDataService.swift:149-190 | the local state becomes `LabelOps.MoveSpec` of the old one; the folder action is queued only when asked and saved; the queue invariant `Valid()` is kept |
| Service.MessageDataService.DeleteMessage | ProtonMail/ProtonMailCommon/DataServices/MessageDataService.swift:205-233 | the delete action is queued first; the local state becomes `LabelOps.DeleteSpec` of the old one and the row is deleted; the queue invariant `Valid()` is kept |
| Service.MessageDataService.CommitSentDraft | ProtonMail/ProtonMailCommon/DataServices/MessageDataService.swift:1620-1652 | a sent draft gets its encryption marker, attachment count and MIME type; it ends read and without body, with sent in place of draft. Reply marking follows only a successful save |
| Service.MessageDataService.OnSendFailure | ProtonMail/ProtonMailCommon/DataServices/MessageDataService.swift:1657-1692 | 9001 raises the human-check flag, from an error answer or a thrown error, and the alert is `AlertFor`; the queue invariant `Valid()` is kept |
| Service.MessageDataService.SendPrecheck | ProtonMail/ProtonMailCommon/DataServices/MessageDataService.swift:1393-1434 | the abort is `SendGuard`; on an abort the error block removes the send's entry from the write queue, otherwise the queue is untouched; with unique uuids exactly that entry leaves and the order of the rest is kept, and `Valid()` is kept |
| Service.MessageDataService.ProcessCountEvents | ProtonMail/ProtonMailCommon/DataServices/MessageDataService.swift:2301-2321 | the reset and the entry loop give `EventCursor.ProcessCounts`, badge included |
| Service.MessageDataService.MergeEvent | ProtonMail/ProtonMailCommon/DataServices/MessageDataService.swift:2012-2095 | the draft patch or the merge with label deltas and status rule is `MessageEvents.Upsert1` |
| Service.MessageDataService.ProcessMessageEvents | ProtonMail/ProtonMailCommon/DataServices/MessageDataService.swift:1984-2106 | the event loop gives `MessageEvents.ApplyEvents` from an empty follow-up list; when that list is not empty the metadata fetch is queued as a read block and the queue drains (`Drain.EnqueueRead`, lines 562-564), and otherwise the queue is untouched; the queue invariant `Valid()` is kept |
| Service.MessageDataService.ApplyEventLoop | ProtonMail/ProtonMailCommon/DataServices/MessageDataService.swift:1984-2099 | the loop over the events, in order, gives `MessageEvents.ApplyEvents` from an empty follow-up list |
| Service.MessageDataService.HandleEvents | ProtonMail/ProtonMailCommon/DataServices/MessageDataService.swift:347-426 | the sync state, badge and reported events are `EventCursor.OnEvents`; the incremental branch applies the events and, when ids are left to fetch, queues the metadata read block and drains; a full refresh with a usable latest id wipes the messages; every other path leaves the messages and the queue alone; the queue invariant `Valid()` is kept |
| Service.MessageDataService.WipeForRefetch | ProtonMail/ProtonMailCommon/DataServices/MessageDataService.swift:355-366 | a full refresh wipes the messages and sets the badge to 0; only a successful refetch clears the store and moves the cursor to the latest id |
| Service.MessageDataService.HandleIncremental | ProtonMail/ProtonMailCommon/DataServices/MessageDataService.swift:374-398 | the events are applied and their metadata fetch queued; the cursor, the counts and the reported inserts change only when the events saved; the queue invariant `Valid()` is kept |
| Service.MessageDataService.RecordFetchWindow | ProtonMail/ProtonMailCommon/DataServices/MessageDataService.swift:263-274 | the windows become `EventCursor.RecordWindow`, or are left alone where the source traps |

## Left out

- CoreData and Groot: saving, faulting, object-id resolution and the JSON merge. The merge is an abstract `upsert`, and each save's result is a boolean parameter.
- The network: request classes, PromiseKit chaining and response parsing. Only the outcome of a request enters the model, as input to the completion.
- Cryptography: body splitting, session keys, encryption and signing of bodies and attachments, MIME and plain-text building. All of it is foreign code.
- Concurrency: the serial update queue, `context.perform` and the main-queue hops. The model is sequential, and a request's completion is a separate call.
- Side effects: toasts, `setBadge` (the badge is returned instead), local notifications, analytics, bug reports, logging and reachability posts.
- File, keychain and credential I/O: attachment download, temporary-folder cleanup, `cachePropertiesForBackground`, and `search`.
- Other event kinds: contacts, contact e-mails, labels, user, settings, addresses and used space only forward to other services.
- The internals of the message queue, the failed queue, the counter store and the `Message` entity are not shown in the file. They are modelled as:
  - `nextMessage()` returns the head unless the queue is blocked, busy or waiting for a human check;
  - a missing counter reads as 0;
  - `clear()` empties the counters and the windows;
  - a new window starts as zeros;
  - the user labels are the ids that are not all digits;
  - the location ids are the API's ("0" to "6" and "10");
  - action raw strings are the case names;
  - `selfSent` is a fixed map from label to peer.
- Service.MessageDataService.ProcessMessageEvents: the metadata fetch is queued as an abstract read block `fetchTask`; what that block does when it runs is not modelled.
- Service.MessageDataService.HandleEvents: the refetch after a full refresh is a read task completing later. The model takes its result as `refetchOk` and does not add that read task to the queue.
- One message store in the source, two in the model: the `Message` objects that mark, label, move and delete edit, and the `replica` map that the event log and the purge after a successful delete edit, are independent abstractions of the same CoreData rows. The model does not tie them, so a local edit is not seen by a later event and an event is not seen by a `Message` object.
- MessageEvents.Finish: the merged message's `subject` is taken to be its `title` field; the two are the same stored property in the model.
- MessageEvents.PatchTime: event times, given in the source as strings or numbers holding doubles, are integers in the model.
- MessageEvents.RemoveLabels: the label deltas force-cast each id to a string (lines 2043 and 2059) and trap on anything else; the model types the ids as strings, so that trap is not modelled.
- MessageEvents.UpsertIdempotent: idempotence of inserts and updates holds only under `StableMerge`, a stated hypothesis about the abstract merge; the merge itself is not modelled.
- SendRules.FindContact: `contacts.find(email:)` is not shown in the file; the model takes it to be the first contact whose address is exactly equal, with no case folding.
- Service.MessageDataService.RecordFetchWindow: times are integers rather than dates, and the traps of the forced unwrap and the `Int32` conversion are modelled as a false answer that leaves the windows alone.
- `fetchMessages`: its setting of `messageStatus` to 1 on fetched messages and its inbox-count fetch are not modelled, apart from the window.
- The send pipeline between the guard and the response is not modelled: builders, attachment keys, address packages and the `SendStatus` reporting. Only `SendGuard` with `SendPrecheck`, `BuildAddresses`, `CommitSentDraft`, `OnSendFailure` and the progress set are modelled.
- The draft save path: only the create-or-update choice and the zero-time rule for the returned time are modelled, not the request or the saving of the response.
