/** The state machine of the write queue: `dequeueIfNeeded(notify:)`, which
    starts the head action or runs queued read blocks, and the completion
    block of a started request, which decides the entry's fate and drains
    further. Both are functions of a `Box` holding the queues and flags;
    the data service's methods are proved to act as these functions. */
module Drain {
  import opened Common
  import opened Outbox

  /** A queued read block, and a stored notify callback, by identity. */
  type ReadTask = nat
  type Callback = nat

  /** A request that was started, with the entry its completion is for. */
  datatype Started = Started(request: Request, entry: QueueEntry)

  /** The write queue and its flags, the failed queue, the in-memory read
      queue, the pending notify callback, the next fresh uuid, and what was
      started, run and fired so far (the effects that leave the service). */
  datatype Box = Box(
    queue: seq<QueueEntry>,
    failed: seq<QueueEntry>,
    readQueue: seq<ReadTask>,
    isBlocked: bool,
    isInProgress: bool,
    isRequiredHumanCheck: bool,
    notify: Option<Callback>,
    nextUUID: nat,
    started: seq<Started>,
    ran: seq<ReadTask>,
    fired: seq<Callback>)

  /** `nextMessage()` hands out the head only when the queue is neither
      blocked, nor busy with a request, nor waiting for a human check. */
  predicate Open(b: Box) {
    !b.isBlocked && !b.isInProgress && !b.isRequiredHumanCheck
  }

  /** The queue's bookkeeping invariant: uuids are unique and all below the
      next fresh one. */
  predicate Valid(b: Box) {
    UniqueIds(b.queue) && forall e :: e in b.queue ==> e.uuid < b.nextUUID
  }

  /** The notify prologue: without a callback, and with both queues empty,
      the stored callback fires and is cleared; with a callback, it is
      stored (replacing any earlier one) and nothing fires. */
  function Prologue(b: Box, notify: Option<Callback>): (r: Box)
    ensures r == b.(notify := r.notify, fired := r.fired)
    ensures notify.Some? ==> r.notify == notify && r.fired == b.fired
    ensures notify.None? && |b.queue| == 0 && |b.readQueue| == 0 ==>
      r.notify == None && r.fired == b.fired + (if b.notify.Some? then [b.notify.value] else [])
    ensures notify.None? && (|b.queue| > 0 || |b.readQueue| > 0) ==> r == b
  {
    if notify.None? then
      if |b.queue| == 0 && |b.readQueue| == 0 then
        b.(notify := None, fired := b.fired + (if b.notify.Some? then [b.notify.value] else []))
      else b
    else b.(notify := notify)
  }

  /** Pop and run the first read block. */
  function RunRead(b: Box): Box
    requires |b.readQueue| > 0
  {
    b.(readQueue := b.readQueue[1..], ran := b.ran + [b.readQueue[0]])
  }

  /** `dequeueIfNeeded(notify:)`. When the queue is open and has a head,
      a known action marks the queue busy and starts its request, and an
      unknown one is removed without a request; otherwise, unless blocked,
      the first read block runs and the drain repeats. */
  function Drain(b: Box, notify: Option<Callback>): (r: Box)
    ensures r.failed == b.failed && r.nextUUID == b.nextUUID
    ensures r.isBlocked == b.isBlocked && r.isRequiredHumanCheck == b.isRequiredHumanCheck
    ensures |r.queue| <= |b.queue|
    ensures forall x :: x in r.queue ==> x in b.queue
    ensures |r.ran| - |b.ran| == |b.readQueue| - |r.readQueue|
    ensures b.ran <= r.ran
    ensures Valid(b) ==> Valid(r)
    decreases |b.readQueue|
  {
    var b1 := Prologue(b, notify);
    if Open(b1) && |b1.queue| > 0 then
      var e := b1.queue[0];
      match ParseAction(e.action)
      case Some(a) => b1.(isInProgress := true, started := b1.started + [Started(Route(a, e), e)])
      case None =>
        RemoveIdMembers(b1.queue, e.uuid);
        assert Valid(b1) ==> UniqueIds(RemoveId(b1.queue, e.uuid)) by {
          if Valid(b1) { RemoveIdOne(b1.queue, 0); SliceUnique(b1.queue, 0); }
        }
        b1.(queue := RemoveId(b1.queue, e.uuid))
    else if !b1.isBlocked && |b1.readQueue| > 0 then
      Drain(RunRead(b1), None)
    else b1
  }

  /** The read blocks that ran between b and r are a prefix of b's read
      queue, in queue order, and r's read queue is the rest. */
  predicate RanPrefix(b: Box, r: Box) {
    var n := |b.readQueue| - |r.readQueue|;
    && 0 <= n <= |b.readQueue|
    && r.readQueue == b.readQueue[n..]
    && r.ran == b.ran + b.readQueue[..n]
  }

  /** Whatever a drain does, the read blocks it ran are a prefix of the
      read queue, run in queue order, and the rest stays queued. */
  lemma {:induction false} DrainRunsPrefix(b: Box, notify: Option<Callback>)
    ensures RanPrefix(b, Drain(b, notify))
    decreases |b.readQueue|
  {
    var b1 := Prologue(b, notify);
    if !(Open(b1) && |b1.queue| > 0) && !b1.isBlocked && |b1.readQueue| > 0 {
      var b2 := RunRead(b1);
      DrainRecurses(b, notify);
      DrainRunsPrefix(b2, None);
      var r := Drain(b2, None);
      PrefixStep(b.readQueue, b.ran, r.readQueue, r.ran, |b2.readQueue| - |r.readQueue|);
    } else {
      DrainStops(b, notify);
      assert b.readQueue[..0] == [] && b.readQueue[0..] == b.readQueue;
    }
  }

  lemma DrainRecurses(b: Box, notify: Option<Callback>)
    requires var b1 := Prologue(b, notify); !(Open(b1) && |b1.queue| > 0) && !b1.isBlocked && |b1.readQueue| > 0
    ensures Drain(b, notify) == Drain(RunRead(Prologue(b, notify)), None)
  {
  }

  lemma DrainStops(b: Box, notify: Option<Callback>)
    requires var b1 := Prologue(b, notify); (Open(b1) && |b1.queue| > 0) || b1.isBlocked || |b1.readQueue| == 0
    ensures Drain(b, notify).readQueue == b.readQueue && Drain(b, notify).ran == b.ran
  {
  }

  /** Running the head and then a prefix of the rest is running a prefix. */
  lemma PrefixStep(q: seq<ReadTask>, ran: seq<ReadTask>, rest: seq<ReadTask>, done: seq<ReadTask>, m: nat)
    requires 0 < |q| && m <= |q| - 1
    requires rest == q[1..][m..] && done == ran + [q[0]] + q[1..][..m]
    ensures rest == q[m + 1..] && done == ran + q[..m + 1]
  {
    assert q[..m + 1] == [q[0]] + q[1..][..m];
  }

  /** Dropping one entry keeps uuids unique. */
  lemma SliceUnique(q: seq<QueueEntry>, i: nat)
    requires UniqueIds(q) && i < |q|
    ensures UniqueIds(q[..i] + q[i + 1..])
  {
    var r := q[..i] + q[i + 1..];
    forall a, b | 0 <= a < b < |r| ensures r[a].uuid != r[b].uuid {
      var a' := if a < i then a else a + 1;
      var b' := if b < i then b else b + 1;
      assert r[a] == q[a'] && r[b] == q[b'];
    }
  }

  // ---------------------------------------------------------------------
  // What one drain does.

  /** A known head action on an open queue is started, with nothing else
      changing: no read block runs and the entry stays queued until its
      completion. */
  lemma DrainStartsHead(b: Box, notify: Option<Callback>, a: MessageAction)
    requires Open(b) && |b.queue| > 0
    requires ParseAction(b.queue[0].action) == Some(a)
    ensures var r := Drain(b, notify);
      && r.isInProgress
      && r.queue == b.queue && r.readQueue == b.readQueue && r.ran == b.ran
      && r.started == b.started + [Started(Route(a, b.queue[0]), b.queue[0])]
  {
  }

  /** An unknown action string is removed from the queue without starting
      anything and without draining further. */
  lemma DrainDropsUnknown(b: Box, notify: Option<Callback>)
    requires Valid(b) && Open(b) && |b.queue| > 0
    requires ParseAction(b.queue[0].action).None?
    ensures var r := Drain(b, notify);
      && r.queue == b.queue[1..]
      && r.started == b.started && r.readQueue == b.readQueue && !r.isInProgress
  {
    RemoveIdOne(b.queue, 0);
    assert b.queue[..0] + b.queue[1..] == b.queue[1..];
  }

  /** When no write action can start (the queue is busy, waiting for a
      human check, or empty) and the queue is not blocked, every read block
      runs, first in first out, and the write queue is left as it was. */
  lemma {:induction false} DrainRunsReads(b: Box, notify: Option<Callback>)
    requires !b.isBlocked
    requires b.isInProgress || b.isRequiredHumanCheck || |b.queue| == 0
    ensures var r := Drain(b, notify);
      && r.ran == b.ran + b.readQueue && r.readQueue == []
      && r.queue == b.queue && r.started == b.started && r.isInProgress == b.isInProgress
    decreases |b.readQueue|
  {
    var b1 := Prologue(b, notify);
    if |b1.readQueue| > 0 {
      var b2 := RunRead(b1);
      DrainRunsReads(b2, None);
      assert b1.readQueue == [b1.readQueue[0]] + b2.readQueue;
    }
  }

  /** A blocked queue whose head cannot start runs nothing at all. */
  lemma DrainBlocked(b: Box, notify: Option<Callback>)
    requires b.isBlocked
    ensures var r := Drain(b, notify);
      r == Prologue(b, notify)
  {
  }

  /** A callback handed over when both queues are already empty is only
      stored: it does not fire during this drain. */
  lemma NotifyDeferred(b: Box, c: Callback)
    requires |b.queue| == 0 && |b.readQueue| == 0
    ensures var r := Drain(b, Some(c));
      r.notify == Some(c) && r.fired == b.fired
  {
  }

  /** A callback handed over with read blocks pending and an idle, empty
      write queue fires once the last read block has run, and is cleared. */
  lemma NotifyAfterReads(b: Box, c: Callback)
    requires !b.isBlocked && |b.queue| == 0 && |b.readQueue| > 0
    ensures var r := Drain(b, Some(c));
      r.notify == None && r.fired == b.fired + [c] && r.readQueue == []
  {
    var b1 := Prologue(b, Some(c));
    NotifyFires(RunRead(b1), c);
  }

  /** Draining without a callback, with an empty write queue and the
      stored callback c: once the read queue is empty, c fires exactly once. */
  lemma {:induction false} NotifyFires(b: Box, c: Callback)
    requires !b.isBlocked && |b.queue| == 0 && b.notify == Some(c)
    ensures var r := Drain(b, None);
      r.notify == None && r.fired == b.fired + [c] && r.readQueue == []
    decreases |b.readQueue|
  {
    var b1 := Prologue(b, None);
    if |b.readQueue| > 0 {
      assert b1 == b;
      NotifyFires(RunRead(b1), c);
    }
  }

  // ---------------------------------------------------------------------
  // Adding to the queues.

  /** `addMessage`: a new entry with a fresh uuid at the end of the queue. */
  function Add(b: Box, target: string, action: MessageAction, data1: string, data2: string): (r: Box)
    ensures Valid(b) ==> Valid(r)
    ensures r.queue == b.queue + [QueueEntry(b.nextUUID, target, ActionName(action), data1, data2)]
    ensures r == b.(queue := r.queue, nextUUID := b.nextUUID + 1)
  {
    var e := QueueEntry(b.nextUUID, target, ActionName(action), data1, data2);
    assert forall x :: x in b.queue + [e] ==> x in b.queue || x == e;
    b.(queue := b.queue + [e], nextUUID := b.nextUUID + 1)
  }

  /** `queue(_:action:data1:data2:)` for a message, given where the entry
      is filed (None: no entry), followed by a drain. */
  function Enqueue(b: Box, target: Option<string>, action: MessageAction, data1: string, data2: string): Box {
    Drain(if target.Some? then Add(b, target.value, action, data1, data2) else b, None)
  }

  /** `queue(_ readBlock:)`: append a read block, then drain. */
  function EnqueueRead(b: Box, t: ReadTask): Box {
    Drain(b.(readQueue := b.readQueue + [t]), None)
  }

  /** A read block queued behind an idle, unblocked, empty write queue runs
      at once, after every read block queued before it. */
  lemma ReadRunsWhenIdle(b: Box, t: ReadTask)
    requires !b.isBlocked && |b.queue| == 0
    ensures EnqueueRead(b, t).ran == b.ran + b.readQueue + [t]
  {
    DrainRunsReads(b.(readQueue := b.readQueue + [t]), None);
  }

  /** An action added to an idle, open, empty queue starts immediately. */
  lemma EnqueueStarts(b: Box, target: string, action: MessageAction, data1: string, data2: string)
    requires Open(b) && |b.queue| == 0
    ensures var e := QueueEntry(b.nextUUID, target, ActionName(action), data1, data2);
      Enqueue(b, Some(target), action, data1, data2).started == b.started + [Started(Route(action, e), e)]
  {
    ParseActionName(action);
  }

  // ---------------------------------------------------------------------
  // The completion block of `writeQueueCompletionBlockForElementID`.

  /** `elementID`, `messageID` and `actionString` are the entry's uuid,
      target and action. A success removes the element (after a send, also
      every queued save or send of the same message) and drains. A failure
      applies the classifier's verdict; then the queue drains again unless
      the failure is a transport failure or the credential cache is locked,
      in which case, unless blocked, one read block runs and the queue
      drains after it. */
  function Complete(b: Box, e: QueueEntry, o: Outcome, lockCode: int): (r: Box)
    ensures r.nextUUID == b.nextUUID && r.isBlocked == b.isBlocked
    ensures r.isRequiredHumanCheck == b.isRequiredHumanCheck
  {
    var b0 := b.(isInProgress := false);
    if o.Succeeded? then
      var q1 := if ParseAction(e.action) == Some(Send) then RemoveDoubleSent(b0.queue, e.target) else b0.queue;
      Drain(b0.(queue := RemoveId(q1, e.uuid)), None)
    else
      var qf := ApplyVerdict(VerdictOf(o, |b0.queue| > 0), b0.queue, b0.failed, e.uuid);
      var b1 := b0.(queue := qf.0, failed := qf.1);
      if Resumes(o, lockCode) then Drain(b1, None)
      else if !b1.isBlocked && |b1.readQueue| > 0 then Drain(RunRead(b1), None)
      else b1
  }

  /** A completion keeps the queue's bookkeeping invariant. */
  lemma CompleteValid(b: Box, e: QueueEntry, o: Outcome, lockCode: int)
    requires Valid(b)
    ensures Valid(Complete(b, e, o, lockCode))
  {
    var b0 := b.(isInProgress := false);
    if o.Succeeded? {
      var q1 := if ParseAction(e.action) == Some(Send) then RemoveDoubleSent(b0.queue, e.target) else b0.queue;
      if q1 != b0.queue { DoubleSentUnique(b0.queue, e.target); }
      RemoveIdMembers(q1, e.uuid);
      RemoveIdUnique(q1, e.uuid);
    } else {
      RemoveIdMembers(b0.queue, e.uuid);
      RemoveIdUnique(b0.queue, e.uuid);
    }
  }

  /** A success for an element that is queued (and not a send) removes
      exactly that element, keeps the order of the rest, and drains. */
  lemma CompleteSuccess(b: Box, i: nat, lockCode: int)
    requires Valid(b) && i < |b.queue|
    requires ParseAction(b.queue[i].action) != Some(Send)
    ensures Complete(b, b.queue[i], Succeeded, lockCode)
         == Drain(b.(isInProgress := false, queue := b.queue[..i] + b.queue[i + 1..]), None)
  {
    RemoveIdOne(b.queue, i);
  }

  /** After a successful send no save or send of that message is left in
      the queue, nor the element itself. */
  lemma CompleteSendSuccess(b: Box, e: QueueEntry, lockCode: int)
    requires ParseAction(e.action) == Some(Send)
    ensures var r := Complete(b, e, Succeeded, lockCode);
      forall x :: x in r.queue ==>
        x in b.queue && x.uuid != e.uuid && !(x.target == e.target && x.action in {"saveDraft", "send"})
  {
    RemoveIdMembers(RemoveDoubleSent(b.queue, e.target), e.uuid);
  }

  /** A 404 for a queued element removes exactly that element and drains
      (unless the code is the locked one). */
  lemma Complete404(b: Box, i: nat, code: int, lockCode: int)
    requires Valid(b) && i < |b.queue| && code != lockCode
    ensures Complete(b, b.queue[i], Failed(code, Some(404)), lockCode)
         == Drain(b.(isInProgress := false, queue := b.queue[..i] + b.queue[i + 1..]), None)
  {
    RemoveIdOne(b.queue, i);
  }

  /** A 500 for the head moves it to the end of the failed queue and
      drains on to the next entry. */
  lemma Complete500(b: Box, code: int, lockCode: int)
    requires Valid(b) && |b.queue| > 0 && code != lockCode
    ensures Complete(b, b.queue[0], Failed(code, Some(500)), lockCode)
         == Drain(b.(isInProgress := false, queue := b.queue[1..], failed := b.failed + [b.queue[0]]), None)
  {
    ParkMovesHead(b.queue, b.failed);
  }

  /** A transport failure leaves the element queued and does not drain the
      write queue by itself: with no read block pending, nothing is started
      and the queue is idle. */
  lemma CompleteOffline(b: Box, e: QueueEntry, o: Outcome, lockCode: int)
    requires IsInternetIssue(o)
    requires b.isBlocked || |b.readQueue| == 0
    ensures Complete(b, e, o, lockCode) == b.(isInProgress := false)
  {
    InternetIssueKeeps(o, |b.queue| > 0);
  }

  /** But with a read block pending, that block runs and the drain after it
      restarts the very head that failed. */
  lemma CompleteOfflineRetries(b: Box, o: Outcome, lockCode: int, a: MessageAction)
    requires IsInternetIssue(o)
    requires !b.isBlocked && !b.isRequiredHumanCheck && |b.readQueue| > 0 && |b.queue| > 0
    requires ParseAction(b.queue[0].action) == Some(a)
    ensures var r := Complete(b, b.queue[0], o, lockCode);
      && r.ran == b.ran + [b.readQueue[0]]
      && r.queue == b.queue
      && r.started == b.started + [Started(Route(a, b.queue[0]), b.queue[0])]
  {
    InternetIssueKeeps(o, true);
    var b1 := RunRead(b.(isInProgress := false));
    DrainStartsHead(b1, None, a);
  }

  /** A send waiting for a human check keeps its entry: the 9001 failure
      keeps the element, and while the flag is up no write action starts. */
  lemma CompleteHumanCheck(b: Box, e: QueueEntry, lockCode: int)
    requires b.isRequiredHumanCheck
    ensures var r := Complete(b, e, Failed(9001, None), lockCode);
      r.queue == b.queue && r.started == b.started && r.failed == b.failed
  {
    var b0 := b.(isInProgress := false);
    if b.isBlocked {
      DrainBlocked(b0, None);
      if |b0.readQueue| > 0 { DrainBlocked(RunRead(b0), None); }
    } else {
      DrainRunsReads(b0, None);
      if |b0.readQueue| > 0 { DrainRunsReads(RunRead(b0), None); }
    }
  }

  /** A send that stopped at its checks has already removed its entry;
      whatever failure the completion then sees, no entry with that uuid
      is left, and nothing that was not queued appears. */
  lemma AbortedSendGone(b: Box, e: QueueEntry, o: Outcome, lockCode: int)
    requires o.Failed?
    ensures var r := Complete(b.(queue := RemoveId(b.queue, e.uuid)), e, o, lockCode);
      forall x :: x in r.queue ==> x in b.queue && x.uuid != e.uuid
  {
    RemoveIdMembers(b.queue, e.uuid);
    var b0 := b.(queue := RemoveId(b.queue, e.uuid), isInProgress := false);
    var qf := ApplyVerdict(VerdictOf(o, |b0.queue| > 0), b0.queue, b0.failed, e.uuid);
    assert forall x :: x in qf.0 ==> x in b.queue && x.uuid != e.uuid;
  }

  /** A completion is for a delete that succeeded: the local message row
      is purged as well (`Message.deleteMessage`). */
  predicate PurgesLocal(e: QueueEntry, o: Outcome) {
    o.Succeeded? && ParseAction(e.action) == Some(Delete)
  }

  /** Filtering keeps uuids unique. */
  lemma {:induction false} RemoveIdUnique(q: seq<QueueEntry>, id: nat)
    requires UniqueIds(q)
    ensures UniqueIds(RemoveId(q, id))
    decreases |q|
  {
    if q != [] {
      UniqueTail(q);
      RemoveIdUnique(q[1..], id);
      RemoveIdMembers(q[1..], id);
      ConsUnique(q[0], RemoveId(q[1..], id));
    }
  }

  /** Removing a uuid keeps the bookkeeping invariant. */
  lemma RemoveKeepsValid(b: Box, id: nat)
    requires Valid(b)
    ensures Valid(b.(queue := RemoveId(b.queue, id)))
  {
    RemoveIdMembers(b.queue, id);
    RemoveIdUnique(b.queue, id);
  }

  lemma {:induction false} DoubleSentUnique(q: seq<QueueEntry>, target: string)
    requires UniqueIds(q)
    ensures UniqueIds(RemoveDoubleSent(q, target))
    decreases |q|
  {
    if q != [] {
      UniqueTail(q);
      DoubleSentUnique(q[1..], target);
      ConsUnique(q[0], RemoveDoubleSent(q[1..], target));
    }
  }

  lemma ConsUnique(x: QueueEntry, r: seq<QueueEntry>)
    requires UniqueIds(r) && forall e :: e in r ==> e.uuid != x.uuid
    ensures UniqueIds([x] + r)
  {
    var s := [x] + r;
    forall a, b | 0 <= a < b < |s| ensures s[a].uuid != s[b].uuid {
      assert s[b] == r[b - 1];
      if a > 0 { assert s[a] == r[a - 1]; }
    }
  }
}
