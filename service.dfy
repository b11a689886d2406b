/** The data service itself: a `Message` object whose label relation and
    flags the service edits in place, the write queue object, and the
    `MessageDataService` whose methods change them step by step as the
    source does. Every method is proved to produce the state the pure
    functions of the other modules describe. */
module Service {
  import opened Common
  import opened Counters
  import opened Locations
  import opened LabelOps
  import opened Outbox
  import opened Drain
  import opened MessageEvents
  import opened EventCursor
  import opened SendRules

  /** A cached message: its local URI, its server id, whether it still
      belongs to a context, its label relation (an NSSet, here a
      duplicate-free sequence), its flags, and the self-sent label map. */
  class Message {
    const objectURI: string
    const selfSent: Peers
    var messageID: string
    var inContext: bool
    var labels: seq<string>
    var unRead: bool
    var isDetailDownloaded: bool
    var isDeleted: bool
    var isEncrypted: Option<EncryptType>
    var numAttachments: int
    var mimeType: string

    predicate Valid()
      reads this
    {
      Distinct(labels)
    }

    constructor (objectURI: string, messageID: string, labels: seq<string>, unRead: bool, selfSent: Peers)
      requires Distinct(labels)
      ensures Valid()
      ensures this.objectURI == objectURI && this.messageID == messageID && this.labels == labels
      ensures this.unRead == unRead && this.selfSent == selfSent && inContext && !isDeleted
    {
      this.objectURI := objectURI;
      this.selfSent := selfSent;
      this.messageID := messageID;
      this.inContext := true;
      this.labels := labels;
      this.unRead := unRead;
      this.isDetailDownloaded := false;
      this.isDeleted := false;
      this.isEncrypted := None;
      this.numAttachments := 0;
      this.mimeType := "";
    }

    /** `add(labelID:)`: the id when it was not there yet, else None. */
    method Add(id: string) returns (r: Option<string>)
      requires Valid()
      modifies this`labels
      ensures Valid()
      ensures r.Some? <==> id !in old(labels)
      ensures r.Some? ==> r.value == id && labels == old(labels) + [id]
      ensures r.None? ==> labels == old(labels)
    {
      if id in labels {
        r := None;
      } else {
        labels := labels + [id];
        r := Some(id);
      }
    }

    /** `remove(labelID:)`: the id when it was there, else None. */
    method Remove(id: string) returns (r: Option<string>)
      requires Valid()
      modifies this`labels
      ensures Valid()
      ensures labels == Without(old(labels), id)
      ensures r.Some? <==> id in old(labels)
      ensures r.Some? ==> r.value == id
    {
      if id in labels {
        labels := Without(labels, id);
        r := Some(id);
      } else {
        r := None;
      }
    }

    /** `selfSent(labelID:)`. */
    function SelfSent(l: string): Option<string> {
      if l in selfSent then Some(selfSent[l]) else None
    }
  }

  /** The write queue (`sharedMessageQueue`), the failed queue, and the
      service's read queue and pending notify callback, with the log of
      what was started, run and fired. */
  class WriteQueue {
    var queue: seq<QueueEntry>
    var failed: seq<QueueEntry>
    var readQueue: seq<ReadTask>
    var isBlocked: bool
    var isInProgress: bool
    var isRequiredHumanCheck: bool
    var notify: Option<Callback>
    var nextUUID: nat
    var started: seq<Started>
    var ran: seq<ReadTask>
    var fired: seq<Callback>

    function State(): Box
      reads this
    {
      Box(queue, failed, readQueue, isBlocked, isInProgress, isRequiredHumanCheck,
          notify, nextUUID, started, ran, fired)
    }

    constructor ()
      ensures State() == Box([], [], [], false, false, false, None, 0, [], [], [])
    {
      queue := [];
      failed := [];
      readQueue := [];
      isBlocked := false;
      isInProgress := false;
      isRequiredHumanCheck := false;
      notify := None;
      nextUUID := 0;
      started := [];
      ran := [];
      fired := [];
    }

    /** `addMessage(_:action:data1:data2:)`. */
    method AddMessage(target: string, action: MessageAction, data1: string, data2: string)
      modifies this
      ensures State() == Add(old(State()), target, action, data1, data2)
    {
      queue := queue + [QueueEntry(nextUUID, target, ActionName(action), data1, data2)];
      nextUUID := nextUUID + 1;
    }
  }

  class MessageDataService {
    const outbox: WriteQueue
    /** `lastUpdatedStore`: the unread counters, the event cursor and the
        per-label fetch windows. */
    var counters: Store
    var lastEventID: string
    var windows: map<string, Window>
    /** The cached messages the event log is applied to. */
    var replica: map<string, MessageRec>

    /** The queue's uuid bookkeeping holds; every method that changes the
        write queue requires and keeps it. */
    predicate Valid()
      reads this, outbox
    {
      Drain.Valid(outbox.State())
    }

    constructor ()
      ensures Valid() && fresh(outbox)
      ensures counters == map[] && lastEventID == "" && windows == map[] && replica == map[]
      ensures outbox.State() == Box([], [], [], false, false, false, None, 0, [], [], [])
    {
      outbox := new WriteQueue();
      counters := map[];
      lastEventID := "";
      windows := map[];
      replica := map[];
    }

    function LocalOf(m: Message): Local
      reads m, this
    {
      Local(m.labels, m.unRead, counters)
    }

    // -------------------------------------------------------------------
    // Counters.

    /** `updateCounter(plus:with:)`. */
    method UpdateCounter(plus: bool, labelID: string)
      modifies this`counters
      ensures counters == Bump(old(counters), labelID, plus)
    {
      var count := Get(counters, labelID);
      count := count + (if plus then 1 else -1);
      if count < 0 {
        count := 0;
      }
      counters := counters[labelID := count];
    }

    /** `updateCounter(markUnRead:on:)`: one clamped step for every label
        of the message, in order. */
    method UpdateCounterOn(markUnRead: bool, m: Message)
      modifies this`counters
      ensures counters == BumpSeq(old(counters), m.labels, markUnRead)
    {
      var ids := m.labels;
      var i := 0;
      while i < |ids|
        invariant 0 <= i <= |ids|
        invariant counters == BumpSeq(old(counters), ids[..i], markUnRead)
      {
        ghost var before := counters;
        var count := Get(counters, ids[i]);
        count := count + (if markUnRead then 1 else -1);
        if count < 0 {
          count := 0;
        }
        counters := counters[ids[i] := count];
        assert counters == Bump(before, ids[i], markUnRead);
        assert ids[..i + 1][..i] == ids[..i];
        assert BumpSeq(old(counters), ids[..i + 1], markUnRead) == Bump(BumpSeq(old(counters), ids[..i], markUnRead), ids[i], markUnRead);
        i := i + 1;
      }
      assert ids[..|ids|] == ids;
    }

    // -------------------------------------------------------------------
    // The write queue.

    /** `dequeueIfNeeded(notify:)`. */
    method DequeueIfNeeded(notify: Option<Callback>)
      requires Valid()
      modifies outbox
      ensures Valid()
      ensures outbox.State() == Drain.Drain(old(outbox.State()), notify)
      decreases |outbox.readQueue|
    {
      if notify.None? {
        if |outbox.queue| <= 0 && |outbox.readQueue| <= 0 {
          if outbox.notify.Some? {
            outbox.fired := outbox.fired + [outbox.notify.value];
          }
          outbox.notify := None;
        }
      } else {
        outbox.notify := notify;
      }
      ghost var b1 := outbox.State();
      assert b1 == Prologue(old(outbox.State()), notify);
      if !outbox.isBlocked && !outbox.isInProgress && !outbox.isRequiredHumanCheck && |outbox.queue| > 0 {
        var e := outbox.queue[0];
        var action := ParseAction(e.action);
        if action.Some? {
          outbox.isInProgress := true;
          outbox.started := outbox.started + [Started(Route(action.value, e), e)];
          assert outbox.State() == b1.(isInProgress := true, started := b1.started + [Started(Route(action.value, e), e)]);
        } else {
          RemoveKeepsValid(b1, e.uuid);
          outbox.queue := RemoveId(outbox.queue, e.uuid);
          assert outbox.State() == b1.(queue := RemoveId(b1.queue, e.uuid));
        }
      } else if !outbox.isBlocked && |outbox.readQueue| > 0 {
        var t := outbox.readQueue[0];
        outbox.readQueue := outbox.readQueue[1..];
        outbox.ran := outbox.ran + [t];
        assert outbox.State() == RunRead(b1);
        DequeueIfNeeded(None);
      }
    }

    /** `queue(_ message:action:data1:data2:)`. */
    method QueueMessage(m: Message, action: MessageAction, data1: string, data2: string)
      requires Valid()
      modifies outbox
      ensures Valid()
      ensures outbox.State() == Enqueue(old(outbox.State()), QueueTarget(action, m.objectURI, m.inContext, m.messageID), action, data1, data2)
    {
      if action == SaveDraft || action == Send || action == MessageAction.Read || action == Unread {
        outbox.AddMessage(m.objectURI, action, data1, data2);
      } else if m.inContext && |m.messageID| > 0 {
        outbox.AddMessage(m.messageID, action, data1, data2);
      }
      DequeueIfNeeded(None);
    }

    /** `queue(_ action:data1:data2:)`: filed under the empty target. */
    method QueueAction(action: MessageAction, data1: string, data2: string)
      requires Valid()
      modifies outbox
      ensures Valid()
      ensures outbox.State() == Enqueue(old(outbox.State()), Some(""), action, data1, data2)
    {
      outbox.AddMessage("", action, data1, data2);
      DequeueIfNeeded(None);
    }

    /** `queue(_ att:action:data1:data2:)`: filed under the attachment's URI. */
    method QueueAttachment(attachmentURI: string, action: MessageAction, data1: string, data2: string)
      requires Valid()
      modifies outbox
      ensures Valid()
      ensures outbox.State() == Enqueue(old(outbox.State()), Some(attachmentURI), action, data1, data2)
    {
      outbox.AddMessage(attachmentURI, action, data1, data2);
      DequeueIfNeeded(None);
    }

    /** `queue(_ readBlock:)`. */
    method QueueRead(t: ReadTask)
      requires Valid()
      modifies outbox
      ensures Valid()
      ensures outbox.State() == EnqueueRead(old(outbox.State()), t)
    {
      outbox.readQueue := outbox.readQueue + [t];
      DequeueIfNeeded(None);
    }

    /** The queue edits of a failed completion, in the order of the
        source's checks on the HTTP status and the error code. */
    method ApplyFailure(e: QueueEntry, o: Outcome)
      requires o.Failed?
      requires Valid()
      modifies outbox`queue, outbox`failed
      ensures Valid()
      ensures (outbox.queue, outbox.failed) == ApplyVerdict(VerdictOf(o, |old(outbox.queue)| > 0), old(outbox.queue), old(outbox.failed), e.uuid)
    {
      RemoveKeepsValid(outbox.State(), e.uuid);
      var statusCode := o.httpStatus.GetOr(200);
      var errorCode := o.code;
      var isInternetIssue := o.httpStatus.None? && IsNetworkCode(errorCode);
      if statusCode == 404 {
        if |outbox.queue| > 0 {
          outbox.queue := RemoveId(outbox.queue, e.uuid);
        }
      }
      if statusCode == 500 && !isInternetIssue {
        if |outbox.queue| > 0 {
          outbox.failed := outbox.failed + [outbox.queue[0]];
          outbox.queue := RemoveId(outbox.queue, e.uuid);
        }
      }
      if statusCode == 200 && errorCode == 9001 {
      } else if statusCode == 200 && errorCode > 1000 {
        outbox.queue := RemoveId(outbox.queue, e.uuid);
      } else if statusCode == 200 && errorCode < 200 && !isInternetIssue {
        outbox.queue := RemoveId(outbox.queue, e.uuid);
      }
      if statusCode != 200 && statusCode != 404 && statusCode != 500 && !isInternetIssue {
        outbox.queue := RemoveId(outbox.queue, e.uuid);
      }
    }

    /** `writeQueueCompletionBlockForElementID` run with the outcome of the
        request started for entry e. */
    method Complete(e: QueueEntry, o: Outcome, lockCode: int)
      requires Valid()
      modifies outbox, this`replica
      ensures Valid()
      ensures outbox.State() == Drain.Complete(old(outbox.State()), e, o, lockCode)
      ensures replica == (if PurgesLocal(e, o) then old(replica) - {e.target} else old(replica))
    {
      outbox.isInProgress := false;
      if o.Succeeded? {
        CompleteSucceeded(e);
      } else {
        CompleteFailed(e, o, lockCode);
      }
    }

    /** A successful request: a delete purges the local message, a send
        drops the other sends of the same message, the element leaves the
        queue, and the queue drains again. */
    method CompleteSucceeded(e: QueueEntry)
      requires Valid()
      modifies outbox, this`replica
      ensures Valid()
      ensures var q1 := if ParseAction(e.action) == Some(Send) then RemoveDoubleSent(old(outbox.queue), e.target) else old(outbox.queue);
        outbox.State() == Drain.Drain(old(outbox.State()).(queue := RemoveId(q1, e.uuid)), None)
      ensures replica == (if ParseAction(e.action) == Some(Delete) then old(replica) - {e.target} else old(replica))
    {
      var action := ParseAction(e.action);
      if action == Some(Delete) {
        replica := replica - {e.target};
      }
      if action == Some(Send) {
        DoubleSentUnique(outbox.queue, e.target);
        outbox.queue := RemoveDoubleSent(outbox.queue, e.target);
      }
      RemoveKeepsValid(outbox.State(), e.uuid);
      outbox.queue := RemoveId(outbox.queue, e.uuid);
      DequeueIfNeeded(None);
    }

    /** A failed request: the queue edits of the verdict, then a new drain
        unless the failure was a network one or the lock code; in that case
        one read block runs when the queue is not blocked. */
    method CompleteFailed(e: QueueEntry, o: Outcome, lockCode: int)
      requires o.Failed?
      requires Valid()
      modifies outbox
      ensures Valid()
      ensures var qf := ApplyVerdict(VerdictOf(o, |old(outbox.queue)| > 0), old(outbox.queue), old(outbox.failed), e.uuid);
        var b1 := old(outbox.State()).(queue := qf.0, failed := qf.1);
        outbox.State() == (if Resumes(o, lockCode) then Drain.Drain(b1, None)
                           else if !b1.isBlocked && |b1.readQueue| > 0 then Drain.Drain(RunRead(b1), None)
                           else b1)
    {
      ghost var b0 := outbox.State();
      ApplyFailure(e, o);
      ghost var b1 := outbox.State();
      assert b1 == b0.(queue := b1.queue, failed := b1.failed);
      var isInternetIssue := o.httpStatus.None? && IsNetworkCode(o.code);
      var errorCode := o.code;
      if !isInternetIssue && errorCode != lockCode {
        assert Resumes(o, lockCode);
        DequeueIfNeeded(None);
      } else if !outbox.isBlocked && |outbox.readQueue| > 0 {
        assert !Resumes(o, lockCode);
        var t := outbox.readQueue[0];
        outbox.readQueue := outbox.readQueue[1..];
        outbox.ran := outbox.ran + [t];
        assert outbox.State() == RunRead(b1);
        DequeueIfNeeded(None);
      } else {
        assert !Resumes(o, lockCode);
      }
    }

    // -------------------------------------------------------------------
    // Local mutations.

    /** `mark(message:unRead:)`. The read or unread action is queued first,
        whatever happens next; a message already in the wanted state then
        answers false with no other change; otherwise the flag is set and,
        when the save succeeds, every label's counter takes one step. */
    method Mark(m: Message, unRead: bool, saveOk: bool) returns (r: bool)
      requires Valid()
      modifies m`unRead, this`counters, outbox
      ensures Valid()
      ensures r <==> m.inContext && old(m.unRead) != unRead && saveOk
      ensures m.unRead == (if m.inContext then unRead else old(m.unRead))
      ensures counters == (if r then BumpSeq(old(counters), m.labels, unRead) else old(counters))
      ensures outbox.State() == (if m.inContext
        then Enqueue(old(outbox.State()), QueueTarget(if unRead then Unread else MessageAction.Read, m.objectURI, m.inContext, m.messageID), if unRead then Unread else MessageAction.Read, "", "")
        else old(outbox.State()))
    {
      if !m.inContext {
        return false;
      }
      QueueMessage(m, if unRead then Unread else MessageAction.Read, "", "");
      if m.unRead == unRead {
        return false;
      }
      m.unRead := unRead;
      if !saveOk {
        return false;
      }
      UpdateCounterOn(unRead, m);
      return true;
    }

    /** `label(message:label:apply:)`: add or remove one label, stepping its
        counter when the relation changed and the message is unread; the
        action is queued only when the save succeeds. */
    method LabelMessage(m: Message, labelID: string, apply: bool, saveOk: bool) returns (r: bool)
      requires m.Valid()
      requires Valid()
      modifies m`labels, this`counters, outbox
      ensures Valid()
      ensures m.Valid()
      ensures r == (m.inContext && saveOk)
      ensures !m.inContext ==> m.labels == old(m.labels) && counters == old(counters) && outbox.State() == old(outbox.State())
      ensures m.inContext ==>
        var changed := if apply then labelID !in old(m.labels) else labelID in old(m.labels);
        && (forall x :: x in m.labels <==> if x == labelID then apply else x in old(m.labels))
        && counters == (if changed && m.unRead then Bump(old(counters), labelID, apply) else old(counters))
        && outbox.State() == (if saveOk
             then Enqueue(old(outbox.State()), QueueTarget(if apply then Label else Unlabel, m.objectURI, m.inContext, m.messageID), if apply then Label else Unlabel, labelID, "")
             else old(outbox.State()))
    {
      if !m.inContext {
        return false;
      }
      if apply {
        var added := m.Add(labelID);
        if added.Some? && m.unRead {
          UpdateCounter(true, labelID);
        }
      } else {
        var removed := m.Remove(labelID);
        if removed.Some? && m.unRead {
          UpdateCounter(false, labelID);
        }
      }
      if !saveOk {
        return false;
      }
      QueueMessage(m, if apply then Label else Unlabel, labelID, "");
      return true;
    }

    /** `remove(labels:on:cleanUnread:)`: take each listed label away, with
        a clamped decrement of it and its self-sent peer when `cleanUnread`
        holds and the message is unread. */
    method RemoveLabels(list: seq<string>, m: Message, cleanUnread: bool)
      requires m.Valid()
      modifies m`labels, this`counters
      ensures m.Valid()
      ensures LocalOf(m) == RemoveAll(Local(old(m.labels), m.unRead, old(counters)), list, cleanUnread && m.unRead, m.selfSent)
    {
      ghost var s0 := Local(m.labels, m.unRead, counters);
      var unread := if cleanUnread then m.unRead else cleanUnread;
      var i := 0;
      while i < |list|
        invariant 0 <= i <= |list|
        invariant m.Valid()
        invariant LocalOf(m) == RemoveAll(s0, list[..i], unread, m.selfSent)
      {
        ghost var before := LocalOf(m);
        var lid := m.Remove(list[i]);
        if lid.Some? && unread {
          UpdateCounter(false, lid.value);
          var peer := m.SelfSent(lid.value);
          if peer.Some? {
            UpdateCounter(false, peer.value);
          }
        }
        assert LocalOf(m) == RemoveOne(before, list[i], unread, m.selfSent);
        assert list[..i + 1][..i] == list[..i];
        i := i + 1;
      }
      assert list[..|list|] == list;
    }

    /** The first step of `move` and `delete`: remove one label, with the
        decrement of it and its peer when the message is unread. */
    method RemoveCounted(m: Message, l: string)
      requires m.Valid()
      modifies m`labels, this`counters
      ensures m.Valid()
      ensures LocalOf(m) == RemoveOne(Local(old(m.labels), m.unRead, old(counters)), l, m.unRead, m.selfSent)
    {
      var lid := m.Remove(l);
      if lid.Some? && m.unRead {
        UpdateCounter(false, lid.value);
        var peer := m.SelfSent(lid.value);
        if peer.Some? {
          UpdateCounter(false, peer.value);
        }
      }
    }

    /** The rest of `move` once the source label is gone: add the target
        label and, when it is new, strip for trash or spam and count the
        arrival and its peer when unread. */
    method ArriveCounted(m: Message, tLabel: string)
      requires m.Valid()
      modifies m`labels, m`unRead, this`counters
      ensures m.Valid()
      ensures LocalOf(m) == Arrive(Local(old(m.labels), old(m.unRead), old(counters)), tLabel, m.selfSent)
    {
      ghost var s1 := LocalOf(m);
      var added := m.Add(tLabel);
      if added.Some? {
        var lid := added.value;
        var labelsFound := NormalLabels(m.labels) + [StarredID, AllMailID];
        if lid == TrashID {
          RemoveLabels(labelsFound, m, true);
          m.unRead := false;
        }
        if lid == SpamID {
          RemoveLabels(labelsFound, m, false);
        }
        if m.unRead {
          UpdateCounter(true, lid);
          var peer := m.SelfSent(lid);
          if peer.Some? {
            UpdateCounter(true, peer.value);
          }
        }
      }
    }

    /** `move(message:from:to:queue:)`: the local state ends as `MoveSpec`
        says; the folder action (from, to) is queued when asked and the
        save succeeds. */
    method Move(m: Message, fLabel: string, tLabel: string, doQueue: bool, saveOk: bool) returns (r: bool)
      requires m.Valid()
      requires Valid()
      modifies m`labels, m`unRead, this`counters, outbox
      ensures Valid()
      ensures m.Valid()
      ensures r == (m.inContext && saveOk)
      ensures m.inContext ==> LocalOf(m) == MoveSpec(Local(old(m.labels), old(m.unRead), old(counters)), fLabel, tLabel, m.selfSent)
      ensures !m.inContext ==> LocalOf(m) == Local(old(m.labels), old(m.unRead), old(counters))
      ensures outbox.State() == (if m.inContext && saveOk && doQueue
        then Enqueue(old(outbox.State()), QueueTarget(Folder, m.objectURI, m.inContext, m.messageID), Folder, fLabel, tLabel)
        else old(outbox.State()))
    {
      if !m.inContext {
        return false;
      }
      RemoveCounted(m, fLabel);
      ArriveCounted(m, tLabel);
      if !saveOk {
        return false;
      }
      if doQueue {
        QueueMessage(m, Folder, fLabel, tLabel);
      }
      return true;
    }

    /** `delete(message:label:)`: the delete action is queued first; the
        local state ends as `DeleteSpec` says and the row is deleted. */
    method DeleteMessage(m: Message, labelID: string, saveOk: bool) returns (r: bool)
      requires m.Valid()
      requires Valid()
      modifies m`labels, m`isDeleted, this`counters, outbox
      ensures Valid()
      ensures m.Valid()
      ensures r == (m.inContext && saveOk)
      ensures m.inContext ==> LocalOf(m) == DeleteSpec(Local(old(m.labels), m.unRead, old(counters)), labelID, m.selfSent) && m.isDeleted
      ensures !m.inContext ==> LocalOf(m) == Local(old(m.labels), m.unRead, old(counters)) && m.isDeleted == old(m.isDeleted)
      ensures outbox.State() == (if m.inContext
        then Enqueue(old(outbox.State()), QueueTarget(Delete, m.objectURI, m.inContext, m.messageID), Delete, "", "")
        else old(outbox.State()))
    {
      if !m.inContext {
        return false;
      }
      QueueMessage(m, Delete, "", "");
      RemoveCounted(m, labelID);
      var labelsFound := NormalLabels(m.labels) + [StarredID, AllMailID];
      RemoveLabels(labelsFound, m, true);
      m.labels := [];
      m.isDeleted := true;
      return saveOk;
    }

    // -------------------------------------------------------------------
    // The send path.

    /** The checks at the start of `send(byID:writeQueueUUID:)`. When one
        fails, the error block takes the send's own entry out of the write
        queue before the error reaches the completion; otherwise the queue
        is left as it was and the send goes on. */
    method SendPrecheck(found: bool, messageID: string, inContext: bool, hasCredentials: bool, writeQueueUUID: nat)
      returns (abort: Option<SendAbort>)
      requires Valid()
      modifies outbox`queue
      ensures Valid()
      ensures abort == SendGuard(found, messageID, inContext, hasCredentials)
      ensures abort.Some? ==> outbox.queue == RemoveId(old(outbox.queue), writeQueueUUID)
      ensures abort.Some? ==> forall i :: 0 <= i < |old(outbox.queue)| && old(outbox.queue)[i].uuid == writeQueueUUID ==>
        outbox.queue == old(outbox.queue)[..i] + old(outbox.queue)[i + 1..]
      ensures abort.None? ==> outbox.queue == old(outbox.queue)
    {
      abort := SendGuard(found, messageID, inContext, hasCredentials);
      if abort.Some? {
        forall i | 0 <= i < |outbox.queue| && outbox.queue[i].uuid == writeQueueUUID
          ensures RemoveId(outbox.queue, writeQueueUUID) == outbox.queue[..i] + outbox.queue[i + 1..]
        {
          RemoveIdOne(outbox.queue, i);
        }
        RemoveKeepsValid(outbox.State(), writeQueueUUID);
        outbox.queue := RemoveId(outbox.queue, writeQueueUUID);
      }
    }

    /** The draft transition after a successful send: for a message still
        labelled as a draft, set the encryption marker, the attachment
        count, the MIME type, mark it read and without body, and move it
        from the draft to the sent label. The draft counter is not touched:
        the decrement guarded by the unread flag comes after the flag is
        cleared. Reply-status marking follows only when the save succeeds. */
    method CommitSentDraft(m: Message, isEO: bool, outSideUser: bool, attachmentCount: int, saveOk: bool) returns (markReply: bool)
      requires m.Valid()
      modifies m`labels, m`unRead, m`isDetailDownloaded, m`isEncrypted, m`numAttachments, m`mimeType
      ensures m.Valid()
      ensures markReply == saveOk
      ensures DraftID in old(m.labels) ==>
        && !m.unRead && !m.isDetailDownloaded
        && m.isEncrypted == Some(EncryptionOf(isEO, outSideUser))
        && m.mimeType == "text/html"
        && m.numAttachments == (if attachmentCount > 0 then attachmentCount else old(m.numAttachments))
        && (forall x :: x in m.labels <==> x == SentID || (x in old(m.labels) && x != DraftID))
      ensures DraftID !in old(m.labels) ==>
        && m.labels == old(m.labels) && m.unRead == old(m.unRead) && m.isDetailDownloaded == old(m.isDetailDownloaded)
        && m.isEncrypted == old(m.isEncrypted) && m.mimeType == old(m.mimeType) && m.numAttachments == old(m.numAttachments)
    {
      if DraftID in m.labels {
        m.isEncrypted := Some(EncryptionOf(isEO, outSideUser));
        if attachmentCount > 0 {
          m.numAttachments := attachmentCount;
        }
        m.mimeType := "text/html";
        m.unRead := false;
        m.isDetailDownloaded := false;
        // The draft counter's decrement is guarded by the unread flag,
        // which was just cleared, so it never runs.
        var _ := m.Remove(DraftID);
        var _ := m.Add(SentID);
      }
      markReply := saveOk;
    }

    /** A send that failed, with an error answer or a thrown error: 9001
        raises the human-check flag of the write queue either way; the
        alert depends on the code and on how the send failed. */
    method OnSendFailure(code: int, thrown: bool) returns (alert: SendAlert)
      requires Valid()
      modifies outbox`isRequiredHumanCheck
      ensures Valid()
      ensures outbox.isRequiredHumanCheck == (old(outbox.isRequiredHumanCheck) || code == HumanCheckCode)
      ensures alert == AlertFor(code, thrown)
    {
      if code == 9001 {
        outbox.isRequiredHumanCheck := true;
      }
      if thrown {
        alert := SentErrorDetails;
      } else if code == 9001 || code == 15198 {
        alert := SentErrorToast;
      } else {
        alert := ErrorToast;
      }
    }

    // -------------------------------------------------------------------
    // The event log.

    /** `processEvents(counts:)`; returns the badge it sets, if any. */
    method ProcessCountEvents(counts: Option<seq<CountEntry>>) returns (badge: Option<int>)
      modifies this`counters
      ensures (counters, badge) == ProcessCounts(old(counters), counts)
    {
      if counts.None? || |counts.value| <= 0 {
        return None;
      }
      var es := counts.value;
      counters := ResetAll(counters);
      ghost var c0 := counters;
      var i := 0;
      while i < |es|
        invariant 0 <= i <= |es|
        invariant counters == ApplyCounts(c0, es[..i])
      {
        var e := es[i];
        if e.labelID.Some? {
          if e.unread.Some? {
            counters := counters[e.labelID.value := e.unread.value];
          }
        }
        assert es[..i + 1][..i] == es[..i];
        i := i + 1;
      }
      assert es[..|es|] == es;
      var badgeNumber := Get(counters, InboxID);
      if badgeNumber < 0 {
        badgeNumber := 0;
      }
      badge := Some(badgeNumber);
    }

    /** The insert and update branch for one event: the draft patch, or
        the merge with its label deltas and status rule. */
    method MergeEvent(ev: MessageEvent, p: Option<Payload>, known: set<string>, upsert: Upsert, noCache: seq<string>)
      returns (noCache': seq<string>)
      modifies this`replica
      ensures Replica(replica, noCache') == Upsert1(Replica(old(replica), noCache), ev, p, known, upsert)
    {
      var existing := Lookup(replica, ev.id);
      if p.Some? && p.value.location == Some(1) && existing.Some? && existing.value.messageStatus == 1 {
        var x := existing.value;
        if p.value.subject.Some? {
          x := x.(title := p.value.subject.value);
        }
        x := x.(time := PatchTime(x.time, p.value.time));
        replica := replica[ev.id.value := x];
        return noCache;
      }
      var payload := p.GetOr(EmptyPayload);
      var outcome := upsert(Lookup(replica, payload.id), payload);
      if outcome.Merged? {
        var rec := outcome.rec;
        var r := rec;
        var removed := payload.labelsRemoved.GetOr([]);
        var j := 0;
        while j < |removed|
          invariant 0 <= j <= |removed|
          invariant r == MessageEvents.RemoveLabels(rec, removed[..j], known)
        {
          var l := removed[j];
          if l in known {
            if |r.labels| > 0 {
              r := r.(labels := r.labels - {l});
            }
          }
          if l == DraftID {
            r := r.(isDetailDownloaded := false);
          }
          assert removed[..j + 1][..j] == removed[..j];
          j := j + 1;
        }
        assert removed[..|removed|] == removed;
        ghost var r1 := r;
        var added := payload.labelsAdded.GetOr([]);
        j := 0;
        while j < |added|
          invariant 0 <= j <= |added|
          invariant r == MessageEvents.AddLabels(r1, added[..j], known)
        {
          if added[j] in known {
            r := r.(labels := r.labels + {added[j]});
          }
          assert added[..j + 1][..j] == added[..j];
          j := j + 1;
        }
        assert added[..|added|] == added;
        var missing := false;
        if r.messageStatus == 0 {
          if r.title == "" {
            missing := true;
          } else {
            r := r.(messageStatus := 1);
          }
        }
        replica := replica[rec.id := r];
        noCache' := noCache + (if missing then [rec.id] else []);
      } else {
        noCache' := noCache + (if payload.id.Some? then [payload.id.value] else []);
      }
    }

    /** `processEvents(messages:notificationMessageID:)`: the loop over the
        events, in order, then the metadata fetch for the ids the loop left
        without a body (`fetchMetadata(with:)`), which, when there are any,
        is queued as the read block `fetchTask` and drains the queue. */
    method ProcessMessageEvents(evs: seq<MessageEvent>, notificationID: Option<string>, known: set<string>, upsert: Upsert,
                                fetchTask: ReadTask)
      returns (noCache: seq<string>)
      requires Valid()
      modifies this`replica, outbox
      ensures Valid()
      ensures Replica(replica, noCache) == ApplyEvents(Replica(old(replica), []), evs, notificationID, known, upsert)
      ensures |noCache| > 0 ==> outbox.State() == EnqueueRead(old(outbox.State()), fetchTask)
      ensures |noCache| == 0 ==> outbox.State() == old(outbox.State())
    {
      noCache := ApplyEventLoop(evs, notificationID, known, upsert);
      if |noCache| > 0 {
        QueueRead(fetchTask);
      }
    }

    /** The loop of `processEvents(messages:notificationMessageID:)`. */
    method ApplyEventLoop(evs: seq<MessageEvent>, notificationID: Option<string>, known: set<string>, upsert: Upsert)
      returns (noCache: seq<string>)
      modifies this`replica
      ensures Replica(replica, noCache) == ApplyEvents(Replica(old(replica), []), evs, notificationID, known, upsert)
    {
      noCache := [];
      var i := 0;
      while i < |evs|
        invariant 0 <= i <= |evs|
        invariant Replica(replica, noCache) == ApplyEvents(Replica(old(replica), []), evs[..i], notificationID, known, upsert)
      {
        var ev := evs[i];
        if ev.action == Some(DeleteCode) {
          if ev.id.Some? && ev.id.value in replica {
            replica := replica - {ev.id.value};
          }
        } else if ev.action == Some(InsertCode) || ev.action == Some(Update1Code) || ev.action == Some(Update2Code) {
          var skip := false;
          var p := ev.message;
          if ev.action == Some(InsertCode) {
            var cached := Lookup(replica, ev.id);
            if cached.Some? && DraftID !in cached.value.labels && SentID !in cached.value.labels {
              skip := true;
            } else {
              p := Prepare(ev, notificationID);
            }
          }
          if !skip {
            noCache := MergeEvent(ev, p, known, upsert, noCache);
          }
        }
        assert evs[..i + 1][..i] == evs[..i];
        i := i + 1;
      }
      assert evs[..|evs|] == evs;
    }

    /** The response handling of `fetchEvents`, with the outcomes of the
        calls it makes as parameters (see `OnEvents`); returns the reported
        message events, the badge and the ids handed to the metadata fetch.
        When the event loop leaves ids to fetch, the metadata fetch
        (`fetchMetadata(with:)`) is queued as the read block `fetchTask`,
        and the queue drains. */
    method HandleEvents(res: Option<EventsResponse>, hasError: bool, latest: Option<string>, refetchOk: bool, saveOk: bool,
                        notificationID: Option<string>, known: set<string>, upsert: Upsert, fetchTask: ReadTask)
      returns (reported: seq<MessageEvent>, badge: Option<int>, metadata: seq<string>)
      requires Valid()
      modifies this`lastEventID, this`counters, this`windows, this`replica, outbox
      ensures Valid()
      ensures BranchOf(res, hasError) == Incremental && |metadata| > 0 ==>
        outbox.State() == EnqueueRead(old(outbox.State()), fetchTask)
      ensures !(BranchOf(res, hasError) == Incremental && |metadata| > 0) ==> outbox.State() == old(outbox.State())
      ensures var step := OnEvents(Sync(old(lastEventID), old(counters), old(windows)), res, hasError, latest, refetchOk, saveOk);
        && Sync(lastEventID, counters, windows) == step.sync
        && reported == step.reported && badge == step.badge
      ensures BranchOf(res, hasError) == Incremental ==>
        Replica(replica, metadata) == ApplyEvents(Replica(old(replica), []), res.value.messages.value, notificationID, known, upsert)
      ensures BranchOf(res, hasError) == FullRefresh && latest.Some? && latest.value != "" ==> replica == map[]
      ensures BranchOf(res, hasError) != Incremental && !(BranchOf(res, hasError) == FullRefresh && latest.Some? && latest.value != "") ==>
        replica == old(replica) && metadata == []
    {
      reported, badge, metadata := [], None, [];
      if res.None? {
        return;
      }
      var eventsRes := res.value;
      if RefreshAll in eventsRes.refresh || RefreshMail in eventsRes.refresh || (hasError && eventsRes.code == 18001) {
        if latest.Some? && latest.value != "" {
          badge := WipeForRefetch(latest.value, refetchOk);
        }
      } else if RefreshContacts in eventsRes.refresh {
      } else if eventsRes.messages.Some? {
        reported, badge, metadata := HandleIncremental(eventsRes, saveOk, notificationID, known, upsert, fetchTask);
      } else {
        if eventsRes.code == 1000 {
          lastEventID := eventsRes.eventID;
          badge := ProcessCountEvents(eventsRes.counts);
        }
      }
    }

    /** The full refresh of `fetchEvents` once the latest event id is
        known: the local messages are wiped and the badge set to 0; after a
        successful refetch the store is cleared and the cursor moves to
        that id. */
    method WipeForRefetch(latestID: string, refetchOk: bool) returns (badge: Option<int>)
      modifies this`lastEventID, this`counters, this`windows, this`replica
      ensures replica == map[] && badge == Some(0)
      ensures refetchOk ==> lastEventID == latestID && counters == map[] && windows == map[]
      ensures !refetchOk ==> lastEventID == old(lastEventID) && counters == old(counters) && windows == old(windows)
    {
      replica := map[];
      badge := Some(0);
      if refetchOk {
        counters := map[];
        windows := map[];
        lastEventID := latestID;
      }
    }

    /** The incremental branch of `fetchEvents`: the message events are
        applied (and their metadata fetch queued); the cursor, the counts
        and the reported inserts follow only when the events saved. */
    method HandleIncremental(e: EventsResponse, saveOk: bool, notificationID: Option<string>, known: set<string>,
                             upsert: Upsert, fetchTask: ReadTask)
      returns (reported: seq<MessageEvent>, badge: Option<int>, metadata: seq<string>)
      requires e.messages.Some?
      requires Valid()
      modifies this`lastEventID, this`counters, this`replica, outbox
      ensures Valid()
      ensures Replica(replica, metadata) == ApplyEvents(Replica(old(replica), []), e.messages.value, notificationID, known, upsert)
      ensures |metadata| > 0 ==> outbox.State() == EnqueueRead(old(outbox.State()), fetchTask)
      ensures |metadata| == 0 ==> outbox.State() == old(outbox.State())
      ensures saveOk ==> lastEventID == e.eventID && (counters, badge) == ProcessCounts(old(counters), e.counts)
                         && reported == Inserts(e.messages.value)
      ensures !saveOk ==> lastEventID == old(lastEventID) && counters == old(counters) && badge.None? && reported == []
    {
      reported, badge := [], None;
      metadata := ProcessMessageEvents(e.messages.value, notificationID, known, upsert, fetchTask);
      if saveOk {
        lastEventID := e.eventID;
        badge := ProcessCountEvents(e.counts);
        reported := Inserts(e.messages.value);
      }
    }

    /** The window bookkeeping of `fetchMessages`; false where the source
        traps (a new window whose first message has no time, or a total
        that does not fit 32 bits), with the windows left as they were. */
    method RecordFetchWindow(labelID: string, times: seq<Option<int>>, total: int, now: int) returns (ok: bool)
      modifies this`windows
      ensures var r := RecordWindow(old(windows), labelID, times, total, now);
        ok == r.Some? && windows == (if ok then r.value else old(windows))
    {
      if |times| == 0 {
        return true;
      }
      var isNew := labelID !in windows;
      var w := if isNew then NewWindow else windows[labelID];
      if isNew {
        if times[0].None? {
          return false;
        }
        if total < Int32Min || total > Int32Max {
          return false;
        }
        w := w.(start := times[0].value, total := total);
      }
      if times[|times| - 1].Some? {
        w := w.(end := times[|times| - 1].value);
      }
      w := w.(update := now);
      windows := windows[labelID := w];
      return true;
    }
  }
}
