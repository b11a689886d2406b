/** The write queue ("outbox") of the data service: the actions it stores,
    where an enqueued action is filed, which request a stored action turns
    into, and how the outcome of that request decides the entry's fate. */
module Outbox {
  import opened Common
  import opened Locations

  /** `MessageAction`: the actions the write queue accepts. */
  datatype MessageAction =
    | SaveDraft | UploadAtt | UploadPubkey | DeleteAtt | Send
    | EmptyTrash | EmptySpam | Empty
    | Read | Unread | Delete | Label | Unlabel | Folder

  /** The string an action is stored under (the enum's raw value). */
  function ActionName(a: MessageAction): string {
    match a
    case SaveDraft => "saveDraft"
    case UploadAtt => "uploadAtt"
    case UploadPubkey => "uploadPubkey"
    case DeleteAtt => "deleteAtt"
    case Send => "send"
    case EmptyTrash => "emptyTrash"
    case EmptySpam => "emptySpam"
    case Empty => "empty"
    case Read => "read"
    case Unread => "unread"
    case Delete => "delete"
    case Label => "label"
    case Unlabel => "unlabel"
    case Folder => "folder"
  }

  /** `MessageAction(rawValue:)`: None for a string no action is stored under. */
  function ParseAction(s: string): (r: Option<MessageAction>)
    ensures r.Some? ==> ActionName(r.value) == s
  {
    if s == "saveDraft" then Some(SaveDraft)
    else if s == "uploadAtt" then Some(UploadAtt)
    else if s == "uploadPubkey" then Some(UploadPubkey)
    else if s == "deleteAtt" then Some(DeleteAtt)
    else if s == "send" then Some(Send)
    else if s == "emptyTrash" then Some(EmptyTrash)
    else if s == "emptySpam" then Some(EmptySpam)
    else if s == "empty" then Some(Empty)
    else if s == "read" then Some(Read)
    else if s == "unread" then Some(Unread)
    else if s == "delete" then Some(Delete)
    else if s == "label" then Some(Label)
    else if s == "unlabel" then Some(Unlabel)
    else if s == "folder" then Some(Folder)
    else None
  }

  /** Storing an action and reading it back gives the same action, so
      every stored action string names exactly one action. */
  lemma ParseActionName(a: MessageAction)
    ensures ParseAction(ActionName(a)) == Some(a)
  {
  }

  lemma ActionNameInjective(a: MessageAction, b: MessageAction)
    ensures ActionName(a) == ActionName(b) <==> a == b
  {
    ParseActionName(a);
    ParseActionName(b);
  }

  // ---------------------------------------------------------------------
  // Entries and the queue operations the service relies on.

  /** One queue element: its uuid, the object it is about (a message id or
      an object URI), the action string and the two data arguments. */
  datatype QueueEntry = QueueEntry(uuid: nat, target: string, action: string, data1: string, data2: string)

  /** `remove(uuid)`: drop the entries with that uuid. */
  function RemoveId(q: seq<QueueEntry>, id: nat): (r: seq<QueueEntry>)
    ensures |r| <= |q|
    decreases |q|
  {
    if q == [] then []
    else (if q[0].uuid == id then [] else [q[0]]) + RemoveId(q[1..], id)
  }

  /** `remove(uuid)` keeps exactly the entries with another uuid. */
  lemma {:induction false} RemoveIdMembers(q: seq<QueueEntry>, id: nat)
    ensures forall e :: e in RemoveId(q, id) <==> e in q && e.uuid != id
    decreases |q|
  {
    if q != [] {
      RemoveIdMembers(q[1..], id);
      assert q == [q[0]] + q[1..];
    }
  }

  /** No two entries share a uuid. */
  predicate UniqueIds(q: seq<QueueEntry>) {
    forall i, j :: 0 <= i < j < |q| ==> q[i].uuid != q[j].uuid
  }

  lemma UniqueTail(q: seq<QueueEntry>)
    requires |q| > 0 && UniqueIds(q)
    ensures UniqueIds(q[1..])
    ensures forall e :: e in q[1..] ==> e.uuid != q[0].uuid
  {
    var tail := q[1..];
    forall a, b | 0 <= a < b < |tail| ensures tail[a].uuid != tail[b].uuid {
      assert tail[a] == q[a + 1] && tail[b] == q[b + 1];
    }
    forall e | e in tail ensures e.uuid != q[0].uuid {
      var j :| 0 <= j < |tail| && tail[j] == e;
      assert q[j + 1] == e;
    }
  }

  /** With unique uuids, removing one that is present removes exactly one
      entry and keeps the order of the rest. */
  lemma {:induction false} RemoveIdOne(q: seq<QueueEntry>, i: nat)
    requires UniqueIds(q)
    requires i < |q|
    ensures RemoveId(q, q[i].uuid) == q[..i] + q[i + 1..]
    decreases |q|
  {
    var id := q[i].uuid;
    var tail := q[1..];
    UniqueTail(q);
    if i == 0 {
      RemoveIdAbsent(tail, id);
      assert RemoveId(q, id) == [] + RemoveId(tail, id);
    } else {
      assert q[0].uuid != id;
      assert RemoveId(q, id) == [q[0]] + RemoveId(tail, id);
      assert tail[i - 1] == q[i];
      RemoveIdOne(tail, i - 1);
      assert RemoveId(tail, id) == tail[..i - 1] + tail[i..];
      assert [q[0]] + tail[..i - 1] == q[..i];
      assert tail[i..] == q[i + 1..];
    }
  }

  /** What `remove(uuid)` keeps, and, with unique uuids, where the one
      removed entry was. */
  lemma RemoveIdFacts(q: seq<QueueEntry>, id: nat)
    ensures forall x :: x in RemoveId(q, id) <==> x in q && x.uuid != id
    ensures UniqueIds(q) ==> forall i :: 0 <= i < |q| && q[i].uuid == id ==> RemoveId(q, id) == q[..i] + q[i + 1..]
  {
    RemoveIdMembers(q, id);
    if UniqueIds(q) {
      forall i | 0 <= i < |q| && q[i].uuid == id ensures RemoveId(q, id) == q[..i] + q[i + 1..] {
        RemoveIdOne(q, i);
      }
    }
  }

  /** Removing an absent uuid changes nothing. */
  lemma {:induction false} RemoveIdAbsent(q: seq<QueueEntry>, id: nat)
    requires forall e :: e in q ==> e.uuid != id
    ensures RemoveId(q, id) == q
    decreases |q|
  {
    if q != [] {
      assert forall e :: e in q[1..] ==> e in q;
      RemoveIdAbsent(q[1..], id);
    }
  }

  /** `removeDoubleSent(messageID:actions:)` with the save-draft and send
      actions: every queued save or send for that target goes. */
  function RemoveDoubleSent(q: seq<QueueEntry>, target: string): (r: seq<QueueEntry>)
    ensures forall e :: e in r <==> e in q && !(e.target == target && e.action in {"saveDraft", "send"})
    decreases |q|
  {
    if q == [] then []
    else
      var e := q[0];
      (if e.target == target && e.action in {"saveDraft", "send"} then [] else [e]) + RemoveDoubleSent(q[1..], target)
  }

  // ---------------------------------------------------------------------
  // Enqueue: where `queue(_:action:data1:data2:)` files an action.

  /** The target under which a message action is filed, or None when no
      entry is added: draft saves, sends and read flags go under the local
      object URI; every other action goes under the server message id, and
      only when the message is in a context and has a non-empty id. */
  function QueueTarget(a: MessageAction, objectURI: string, inContext: bool, messageID: string): (r: Option<string>)
    ensures a in {SaveDraft, Send, Read, Unread} ==> r == Some(objectURI)
    ensures a !in {SaveDraft, Send, Read, Unread} ==>
      (r.Some? <==> inContext && messageID != "") && (r.Some? ==> r.value == messageID)
  {
    if a == SaveDraft || a == Send || a == Read || a == Unread then Some(objectURI)
    else if inContext && |messageID| > 0 then Some(messageID)
    else None
  }

  // ---------------------------------------------------------------------
  // Dispatch: the request `dequeueIfNeeded` starts for the head entry.

  /** The request a queue entry is turned into; `EmptyIn` is `empty(at:)`
      for a location and `EmptyLabel` is `empty(labelID:)`. */
  datatype Request =
    | SaveDraftRequest(id: string)
    | UploadAttRequest(id: string)
    | UploadPubkeyRequest(id: string)
    | DeleteAttRequest(id: string)
    | SendRequest(id: string)
    | EmptyIn(location: Location)
    | EmptyLabel(labelID: string)
    | ActionRequest(ids: seq<string>, action: string)
    | DeleteRequest(ids: seq<string>, action: string)
    | LabelRequest(labelID: string, id: string)
    | UnlabelRequest(labelID: string, id: string)

  /** The `switch` of `dequeueIfNeeded`. */
  function Route(a: MessageAction, e: QueueEntry): Request {
    match a
    case SaveDraft => SaveDraftRequest(e.target)
    case UploadAtt => UploadAttRequest(e.target)
    case UploadPubkey => UploadPubkeyRequest(e.target)
    case DeleteAtt => DeleteAttRequest(e.target)
    case Send => SendRequest(e.target)
    case EmptyTrash => EmptyIn(Trash)
    case EmptySpam => EmptyIn(Spam)
    case Empty => EmptyLabel(e.data1)
    case Read => ActionRequest([e.target], e.action)
    case Unread => ActionRequest([e.target], e.action)
    case Delete => DeleteRequest([e.target], e.action)
    case Label => LabelRequest(e.data1, e.target)
    case Unlabel => UnlabelRequest(e.data1, e.target)
    case Folder => LabelRequest(e.data2, e.target)
  }

  /** The label argument the request carries, when it carries one. */
  function RequestLabel(r: Request): Option<string> {
    match r
    case EmptyLabel(l) => Some(l)
    case LabelRequest(l, _) => Some(l)
    case UnlabelRequest(l, _) => Some(l)
    case _ => None
  }

  /** The folder action applies its destination, `data2`, while label,
      unlabel and empty use `data1`; every action that names a message
      sends the entry's target as that message. */
  lemma RouteArguments(a: MessageAction, e: QueueEntry)
    requires ParseAction(e.action) == Some(a)
    ensures a == Folder ==> Route(a, e) == LabelRequest(e.data2, e.target)
    ensures a in {Label, Unlabel, Empty} ==> RequestLabel(Route(a, e)) == Some(e.data1)
    ensures a in {Read, Unread} ==> Route(a, e) == ActionRequest([e.target], ActionName(a))
    ensures a !in {EmptyTrash, EmptySpam, Empty} ==> Route(a, e).EmptyIn? == false && Route(a, e).EmptyLabel? == false
  {
  }

  /** The guard of `empty(at:)`: only spam, trash and drafts are emptied,
      through `empty(labelID:)` with the location's id; any other location
      completes at once without a request. */
  function EmptyAt(l: Location): (r: Option<Request>)
    ensures r.Some? <==> l in {Spam, Trash, Draft}
    ensures r.Some? ==> r.value == EmptyLabel(l.RawValue())
  {
    if l != Spam && l != Trash && l != Draft then None else Some(EmptyLabel(l.RawValue()))
  }

  // ---------------------------------------------------------------------
  // The completion block of a queued request.

  /** What a request's completion reports: success, or an error with its
      code and, when the error carries one, the HTTP response status. */
  datatype Outcome = Succeeded | Failed(code: int, httpStatus: Option<int>)

  /** The three transport codes treated as "no internet": not connected,
      cannot connect to host, timed out. */
  predicate IsNetworkCode(code: int) {
    code == -1009 || code == -1004 || code == -1001
  }

  /** An error with no HTTP response and a transport code. */
  predicate IsInternetIssue(o: Outcome) {
    o.Failed? && o.httpStatus.None? && IsNetworkCode(o.code)
  }

  /** The status the block reasons with: the response's, else 200. */
  function StatusOf(o: Outcome): int
    requires o.Failed?
  {
    o.httpStatus.GetOr(200)
  }

  /** What the block does with the queue: drop the element, park the queue
      head in the failed queue (and drop the element), or leave both. */
  datatype Verdict = Remove | Park | Keep

  /** The error branches of the completion block, after a failure. The 404
      and 500 branches act only when the queue has a head (`next()`). */
  function Classify(code: int, status: int, internet: bool, hasHead: bool): Verdict {
    if status == 404 then (if hasHead then Remove else Keep)
    else if status == 500 && !internet then (if hasHead then Park else Keep)
    else if status == 200 && code == 9001 then Keep
    else if status == 200 && code > 1000 then Remove
    else if status == 200 && code < 200 && !internet then Remove
    else if status != 200 && status != 404 && status != 500 && !internet then Remove
    else Keep
  }

  /** The decision table of the completion block, row by row. */
  lemma ClassifyTable(code: int, status: int, internet: bool)
    ensures status == 404 ==> Classify(code, status, internet, true) == Remove
    ensures status == 500 && !internet ==> Classify(code, status, internet, true) == Park
    ensures status == 200 && code == 9001 ==> Classify(code, status, internet, true) == Keep
    ensures status == 200 && code > 1000 && code != 9001 ==> Classify(code, status, internet, true) == Remove
    ensures status == 200 && code < 200 && !internet ==> Classify(code, status, internet, true) == Remove
    ensures status == 200 && 200 <= code <= 1000 ==> Classify(code, status, internet, true) == Keep
    ensures status !in {200, 404, 500} && !internet ==> Classify(code, status, internet, true) == Remove
    ensures internet && status == 200 && code <= 1000 ==> Classify(code, status, internet, true) == Keep
  {
  }

  /** The verdict for an outcome that is a failure. */
  function VerdictOf(o: Outcome, hasHead: bool): Verdict
    requires o.Failed?
  {
    Classify(o.code, StatusOf(o), IsInternetIssue(o), hasHead)
  }

  /** A transport failure never has a status other than 200, and it always
      leaves the element queued: the outbox waits for the network. */
  lemma InternetIssueKeeps(o: Outcome, hasHead: bool)
    requires IsInternetIssue(o)
    ensures StatusOf(o) == 200
    ensures VerdictOf(o, hasHead) == Keep
  {
  }

  /** Whether, after a failure, the block goes on draining the write queue
      (rather than running at most one read task): not for a transport
      failure and not for the credential-cache-locked code. */
  predicate Resumes(o: Outcome, lockCode: int)
    requires o.Failed?
  {
    !IsInternetIssue(o) && o.code != lockCode
  }

  /** The queues after the verdict. Parking copies the HEAD (what `next()`
      returns) to the failed queue; both parking and removal then remove
      the element the block was written for. */
  function ApplyVerdict(v: Verdict, q: seq<QueueEntry>, failed: seq<QueueEntry>, elementID: nat): (r: (seq<QueueEntry>, seq<QueueEntry>))
    ensures v == Keep ==> r == (q, failed)
    ensures forall x :: x in r.0 <==> x in q && (v == Keep || x.uuid != elementID)
    ensures r.1 == failed + (if v == Park && |q| > 0 then [q[0]] else [])
    ensures UniqueIds(q) && v != Keep ==>
      forall i :: 0 <= i < |q| && q[i].uuid == elementID ==> r.0 == q[..i] + q[i + 1..]
  {
    RemoveIdFacts(q, elementID);
    match v
    case Keep => (q, failed)
    case Remove => (RemoveId(q, elementID), failed)
    case Park => if |q| > 0 then (RemoveId(q, elementID), failed + [q[0]]) else (q, failed)
  }

  /** When the element is the queue head and uuids are distinct, parking
      moves exactly that entry from the queue to the end of the failed queue. */
  lemma ParkMovesHead(q: seq<QueueEntry>, failed: seq<QueueEntry>)
    requires UniqueIds(q)
    requires |q| > 0
    ensures ApplyVerdict(Park, q, failed, q[0].uuid) == (q[1..], failed + [q[0]])
  {
    RemoveIdOne(q, 0);
    assert q[..0] + q[1..] == q[1..];
  }
}
