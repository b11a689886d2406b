/** Applying the message part of the event log (`processEvents(messages:)`)
    to the local message store. The store is a map from message id to the
    cached fields the loop looks at; the JSON merge into the store is a
    parameter that may produce a record, produce nothing, or throw. */
module MessageEvents {
  import opened Common
  import opened Locations

  /** The fields of a cached message the event loop reads or writes. */
  datatype MessageRec = MessageRec(
    id: string,
    labels: set<string>,
    title: string,
    time: int,
    messageStatus: int,
    isDetailDownloaded: bool,
    unRead: bool)

  /** The message dictionary of one event; every key may be missing. */
  datatype Payload = Payload(
    id: Option<string>,
    location: Option<int>,
    subject: Option<string>,
    time: Option<int>,
    unread: Option<bool>,
    messageStatus: Option<int>,
    labelsAdded: Option<seq<string>>,
    labelsRemoved: Option<seq<string>>)

  const EmptyPayload := Payload(None, None, None, None, None, None, None, None)

  /** One `MessageEvent`: the action code, the message id, the message. */
  datatype MessageEvent = MessageEvent(action: Option<int>, id: Option<string>, message: Option<Payload>)

  /** The `IncrementalUpdateType` codes. */
  const DeleteCode := 0
  const InsertCode := 1
  const Update1Code := 2
  const Update2Code := 3

  /** What the JSON merge gives: the merged record, no object, or an error. */
  datatype MergeOutcome = Merged(rec: MessageRec) | NoObject | Threw

  /** The merge: the stored record for the payload's id (if any) and the
      payload decide the outcome. */
  type Upsert = (Option<MessageRec>, Payload) -> MergeOutcome

  /** The local store and the ids queued for a metadata fetch. */
  datatype Replica = Replica(messages: map<string, MessageRec>, noCache: seq<string>)

  function Lookup(m: map<string, MessageRec>, id: Option<string>): Option<MessageRec> {
    if id.Some? && id.value in m then Some(m[id.value]) else None
  }

  /** The insert preparation: the unread flag is dropped for the message
      the user opened from a notification, and the status is set to 1. */
  function Prepare(ev: MessageEvent, notificationID: Option<string>): (r: Option<Payload>)
    ensures r.Some? <==> ev.message.Some?
    ensures r.Some? ==> r.value.messageStatus == Some(1)
    ensures r.Some? && notificationID.Some? && ev.id == notificationID ==> r.value.unread.None?
    ensures r.Some? && !(notificationID.Some? && ev.id == notificationID) ==> r.value.unread == ev.message.value.unread
    ensures r.Some? ==> r.value.(unread := ev.message.value.unread, messageStatus := ev.message.value.messageStatus) == ev.message.value
  {
    match ev.message
    case None => None
    case Some(p) =>
      var p1 := if notificationID.Some? && ev.id == notificationID then p.(unread := None) else p;
      Some(p1.(messageStatus := Some(1)))
  }

  /** A zero time never overwrites the stored time. */
  function PatchTime(stored: int, t: Option<int>): (r: int)
    ensures t.None? || t == Some(0) ==> r == stored
    ensures t.Some? && t.value != 0 ==> r == t.value
  {
    if t.Some? && t.value != 0 then t.value else stored
  }

  /** The removal loop over `LabelIDsRemoved`: a known label leaves the
      relation, and removing the draft label "1" clears the body flag. */
  function RemoveLabels(r: MessageRec, removed: seq<string>, known: set<string>): MessageRec
    decreases |removed|
  {
    if removed == [] then r
    else
      var r1 := RemoveLabels(r, removed[..|removed| - 1], known);
      var l := removed[|removed| - 1];
      var r2 := if l in known then r1.(labels := r1.labels - {l}) else r1;
      if l == DraftID then r2.(isDetailDownloaded := false) else r2
  }

  /** The addition loop over `LabelIDsAdded`: a known label joins. */
  function AddLabels(r: MessageRec, added: seq<string>, known: set<string>): MessageRec
    decreases |added|
  {
    if added == [] then r
    else
      var r1 := AddLabels(r, added[..|added| - 1], known);
      var l := added[|added| - 1];
      if l in known then r1.(labels := r1.labels + {l}) else r1
  }

  /** The removal loop, in closed form. */
  lemma {:induction false} RemoveLabelsEffect(r: MessageRec, removed: seq<string>, known: set<string>)
    ensures RemoveLabels(r, removed, known)
         == r.(labels := r.labels - (Elems(removed) * known),
               isDetailDownloaded := r.isDetailDownloaded && DraftID !in removed)
    decreases |removed|
  {
    if removed != [] {
      var init := removed[..|removed| - 1];
      RemoveLabelsEffect(r, init, known);
      assert removed == init + [removed[|removed| - 1]];
      assert Elems(removed) == Elems(init) + {removed[|removed| - 1]};
    }
  }

  /** The addition loop, in closed form. */
  lemma {:induction false} AddLabelsEffect(r: MessageRec, added: seq<string>, known: set<string>)
    ensures AddLabels(r, added, known) == r.(labels := r.labels + Elems(added) * known)
    decreases |added|
  {
    if added != [] {
      var init := added[..|added| - 1];
      AddLabelsEffect(r, init, known);
      assert added == init + [added[|added| - 1]];
      assert Elems(added) == Elems(init) + {added[|added| - 1]};
    }
  }

  /** A merged record after the label deltas, and whether it still lacks
      its body: status 0 with an empty subject is queued for a metadata
      fetch, status 0 with a subject becomes status 1. */
  function Finish(rec: MessageRec, p: Payload, known: set<string>): (MessageRec, bool) {
    var r1 := RemoveLabels(rec, p.labelsRemoved.GetOr([]), known);
    var r2 := AddLabels(r1, p.labelsAdded.GetOr([]), known);
    if r2.messageStatus == 0 then
      if r2.title == "" then (r2, true) else (r2.(messageStatus := 1), false)
    else (r2, false)
  }

  /** The insert and update branches after preparation. */
  function Upsert1(s: Replica, ev: MessageEvent, p: Option<Payload>, known: set<string>, upsert: Upsert): Replica {
    var existing := Lookup(s.messages, ev.id);
    if p.Some? && p.value.location == Some(1) && existing.Some? && existing.value.messageStatus == 1 then
      var x := existing.value;
      var title := if p.value.subject.Some? then p.value.subject.value else x.title;
      var x1 := x.(title := title, time := PatchTime(x.time, p.value.time));
      s.(messages := s.messages[ev.id.value := x1])
    else
      var payload := p.GetOr(EmptyPayload);
      match upsert(Lookup(s.messages, payload.id), payload)
      case Merged(rec) =>
        var (r, missing) := Finish(rec, payload, known);
        Replica(s.messages[rec.id := r], s.noCache + (if missing then [rec.id] else []))
      case _ =>
        s.(noCache := s.noCache + (if payload.id.Some? then [payload.id.value] else []))
  }

  /** One turn of the event loop. */
  function ApplyEvent(s: Replica, ev: MessageEvent, notificationID: Option<string>, known: set<string>, upsert: Upsert): Replica {
    if ev.action == Some(DeleteCode) then
      if ev.id.Some? && ev.id.value in s.messages then s.(messages := s.messages - {ev.id.value}) else s
    else if ev.action == Some(InsertCode) then
      var cached := Lookup(s.messages, ev.id);
      if cached.Some? && DraftID !in cached.value.labels && SentID !in cached.value.labels then s
      else Upsert1(s, ev, Prepare(ev, notificationID), known, upsert)
    else if ev.action == Some(Update1Code) || ev.action == Some(Update2Code) then
      Upsert1(s, ev, ev.message, known, upsert)
    else s
  }

  /** The whole loop, in array order. */
  function ApplyEvents(s: Replica, evs: seq<MessageEvent>, notificationID: Option<string>, known: set<string>, upsert: Upsert): Replica
    decreases |evs|
  {
    if evs == [] then s
    else ApplyEvent(ApplyEvents(s, evs[..|evs| - 1], notificationID, known, upsert), evs[|evs| - 1], notificationID, known, upsert)
  }

  // ---------------------------------------------------------------------
  // Properties of one event.

  /** A delete removes exactly the cached message with that id; for an id
      not in the store it changes nothing. */
  lemma DeleteEvent(s: Replica, id: string, p: Option<Payload>, n: Option<string>, known: set<string>, upsert: Upsert)
    ensures var r := ApplyEvent(s, MessageEvent(Some(DeleteCode), Some(id), p), n, known, upsert);
      && r.noCache == s.noCache
      && id !in r.messages
      && (forall k :: k != id ==> (k in r.messages <==> k in s.messages))
      && (forall k :: k in r.messages ==> r.messages[k] == s.messages[k])
      && (id !in s.messages ==> r == s)
  {
  }

  /** An insert for a cached message that is neither a draft nor sent is
      skipped entirely: the merge does not even run. */
  lemma InsertCachedSkipped(s: Replica, ev: MessageEvent, n: Option<string>, known: set<string>, upsert: Upsert)
    requires ev.action == Some(InsertCode) && ev.id.Some? && ev.id.value in s.messages
    requires DraftID !in s.messages[ev.id.value].labels && SentID !in s.messages[ev.id.value].labels
    ensures ApplyEvent(s, ev, n, known, upsert) == s
  {
  }

  /** An event at the draft location for a record the store already holds
      with status 1 (an insert gets this far only for a draft or a sent
      message) changes only that record's title (when a subject is given)
      and its time (when a non-zero time is given); the merge does not run. */
  lemma DraftPatched(s: Replica, ev: MessageEvent, n: Option<string>, known: set<string>, upsert: Upsert)
    requires ev.action in {Some(InsertCode), Some(Update1Code), Some(Update2Code)}
    requires ev.message.Some? && ev.message.value.location == Some(1)
    requires ev.id.Some? && ev.id.value in s.messages
    requires s.messages[ev.id.value].messageStatus == 1
    requires ev.action == Some(InsertCode) ==>
      DraftID in s.messages[ev.id.value].labels || SentID in s.messages[ev.id.value].labels
    ensures var r := ApplyEvent(s, ev, n, known, upsert);
      var x := s.messages[ev.id.value];
      var p := ev.message.value;
      && r.noCache == s.noCache
      && r.messages == s.messages[ev.id.value := x.(title := p.subject.GetOr(x.title), time := PatchTime(x.time, p.time))]
  {
  }

  /** A merge that produced a record stores it with the label deltas
      applied: known removed labels go first, known added labels come
      after (so a label both removed and added stays), and a removed draft
      label clears the body flag. A record still at status 0 with an empty
      subject is queued for a metadata fetch. */
  lemma MergedEvent(s: Replica, ev: MessageEvent, p: Payload, known: set<string>, upsert: Upsert, rec: MessageRec)
    requires upsert(Lookup(s.messages, p.id), p) == Merged(rec)
    requires !(p.location == Some(1) && Lookup(s.messages, ev.id).Some? && Lookup(s.messages, ev.id).value.messageStatus == 1)
    ensures var r := Upsert1(s, ev, Some(p), known, upsert);
      var removed := Elems(p.labelsRemoved.GetOr([])) * known;
      var added := Elems(p.labelsAdded.GetOr([])) * known;
      && rec.id in r.messages
      && r.messages[rec.id].labels == (rec.labels - removed) + added
      && (DraftID in p.labelsRemoved.GetOr([]) ==> !r.messages[rec.id].isDetailDownloaded)
      && r.messages[rec.id].title == rec.title
      && (r.noCache == s.noCache + [rec.id] <==> rec.messageStatus == 0 && rec.title == "")
      && ((rec.messageStatus == 0 && rec.title == "") || r.noCache == s.noCache)
      && (rec.messageStatus == 0 && rec.title != "" ==> r.messages[rec.id].messageStatus == 1)
      && (forall k :: k != rec.id ==> (k in r.messages <==> k in s.messages))
  {
    var r1 := RemoveLabels(rec, p.labelsRemoved.GetOr([]), known);
    RemoveLabelsEffect(rec, p.labelsRemoved.GetOr([]), known);
    AddLabelsEffect(r1, p.labelsAdded.GetOr([]), known);
  }

  /** A merge that produced nothing or threw queues the payload's id (when
      it has one) for a metadata fetch and changes no message. */
  lemma FailedMerge(s: Replica, ev: MessageEvent, p: Payload, known: set<string>, upsert: Upsert)
    requires upsert(Lookup(s.messages, p.id), p) in {NoObject, Threw}
    requires !(p.location == Some(1) && Lookup(s.messages, ev.id).Some? && Lookup(s.messages, ev.id).value.messageStatus == 1)
    ensures var r := Upsert1(s, ev, Some(p), known, upsert);
      && r.messages == s.messages
      && r.noCache == s.noCache + (if p.id.Some? then [p.id.value] else [])
  {
  }

  /** Events with any other action code are ignored. */
  lemma UnknownEventIgnored(s: Replica, ev: MessageEvent, n: Option<string>, known: set<string>, upsert: Upsert)
    requires ev.action.None? || ev.action.value !in {DeleteCode, InsertCode, Update1Code, Update2Code}
    ensures ApplyEvent(s, ev, n, known, upsert) == s
  {
  }

  // ---------------------------------------------------------------------
  // Properties of the loop.

  /** The metadata list only grows: what the loop queued for a metadata
      fetch is never dropped or reordered by later events. */
  lemma {:induction false} NoCacheGrows(s: Replica, evs: seq<MessageEvent>, n: Option<string>, known: set<string>, upsert: Upsert)
    ensures s.noCache <= ApplyEvents(s, evs, n, known, upsert).noCache
    decreases |evs|
  {
    if evs != [] {
      NoCacheGrows(s, evs[..|evs| - 1], n, known, upsert);
    }
  }

  /** Applying the same delete twice is the same as applying it once. */
  lemma DeleteIdempotent(s: Replica, ev: MessageEvent, n: Option<string>, known: set<string>, upsert: Upsert)
    requires ev.action == Some(DeleteCode)
    ensures var r := ApplyEvent(s, ev, n, known, upsert);
      ApplyEvent(r, ev, n, known, upsert) == r
  {
  }

  /** What re-applying an event needs of the abstract merge: a merged
      record is keyed by the payload's id and takes the payload's subject
      and non-zero time, and merging the same payload onto its own merged
      result, label deltas and status applied, gives that result back. */
  predicate StableMerge(upsert: Upsert, stored: Option<MessageRec>, p: Payload, known: set<string>) {
    match upsert(stored, p)
    case Merged(rec) =>
      var fin := Finish(rec, p, known).0;
      && p.id == Some(rec.id)
      && (p.subject.Some? ==> rec.title == p.subject.value)
      && (p.time.Some? && p.time.value != 0 ==> rec.time == p.time.value)
      && upsert(Some(fin), p) == Merged(fin)
    case _ => true
  }

  /** Finishing a finished record changes nothing more and queues it for
      a metadata fetch only if the first pass did; the title and time are
      never touched. */
  lemma FinishIdempotent(rec: MessageRec, p: Payload, known: set<string>)
    ensures var (r, missing) := Finish(rec, p, known);
      && Finish(r, p, known).0 == r
      && (Finish(r, p, known).1 ==> missing)
      && r.id == rec.id && r.title == rec.title && r.time == rec.time
  {
    var rem := p.labelsRemoved.GetOr([]);
    var add := p.labelsAdded.GetOr([]);
    var r1 := RemoveLabels(rec, rem, known);
    RemoveLabelsEffect(rec, rem, known);
    AddLabelsEffect(r1, add, known);
    var (r, _) := Finish(rec, p, known);
    var s1 := RemoveLabels(r, rem, known);
    RemoveLabelsEffect(r, rem, known);
    AddLabelsEffect(s1, add, known);
  }

  /** The insert or update branch run twice with the same payload: the
      second pass changes no message, and any id it queues was queued by
      the first. */
  lemma Upsert1Twice(s: Replica, ev: MessageEvent, p: Payload, known: set<string>, upsert: Upsert)
    requires ev.id.Some? && p.id == ev.id
    requires StableMerge(upsert, Lookup(s.messages, ev.id), p, known)
    ensures var r1 := Upsert1(s, ev, Some(p), known, upsert);
      var r2 := Upsert1(r1, ev, Some(p), known, upsert);
      && r2.messages == r1.messages
      && r1.noCache <= r2.noCache
      && Elems(r2.noCache) == Elems(r1.noCache)
  {
    var id := ev.id.value;
    var r1 := Upsert1(s, ev, Some(p), known, upsert);
    var existing := Lookup(s.messages, ev.id);
    if p.location == Some(1) && existing.Some? && existing.value.messageStatus == 1 {
      assert r1.noCache == s.noCache;
    } else {
      match upsert(existing, p)
      case Merged(rec) =>
        FinishIdempotent(rec, p, known);
        var (fin, missing) := Finish(rec, p, known);
        assert Lookup(r1.messages, ev.id) == Some(fin);
        var r2 := Upsert1(r1, ev, Some(p), known, upsert);
        if !(p.location == Some(1) && fin.messageStatus == 1) {
          assert r2.noCache == r1.noCache + (if Finish(fin, p, known).1 then [rec.id] else []);
          assert Finish(fin, p, known).1 ==> rec.id in r1.noCache;
        }
      case _ =>
    }
  }

  /** Applying the same insert or update event twice: the second time no
      message changes, and the follow-up list gains no new id (it may list
      one again). */
  lemma UpsertIdempotent(s: Replica, ev: MessageEvent, n: Option<string>, known: set<string>, upsert: Upsert)
    requires ev.action in {Some(InsertCode), Some(Update1Code), Some(Update2Code)}
    requires ev.id.Some? && ev.message.Some? && ev.message.value.id == ev.id
    requires StableMerge(upsert, Lookup(s.messages, ev.id),
                         if ev.action == Some(InsertCode) then Prepare(ev, n).value else ev.message.value, known)
    ensures var r1 := ApplyEvent(s, ev, n, known, upsert);
      var r2 := ApplyEvent(r1, ev, n, known, upsert);
      && r2.messages == r1.messages
      && r1.noCache <= r2.noCache
      && Elems(r2.noCache) == Elems(r1.noCache)
  {
    var p := if ev.action == Some(InsertCode) then Prepare(ev, n).value else ev.message.value;
    assert ev.action == Some(InsertCode) ==> Prepare(ev, n) == Some(p);
    var cached := Lookup(s.messages, ev.id);
    if !(ev.action == Some(InsertCode) && cached.Some? && DraftID !in cached.value.labels && SentID !in cached.value.labels) {
      Upsert1Twice(s, ev, p, known, upsert);
    }
  }

  /** A log made only of deletes leaves no deleted id in the store and
      queues nothing for a metadata fetch. */
  lemma {:induction false} DeletesOnly(s: Replica, evs: seq<MessageEvent>, n: Option<string>, known: set<string>, upsert: Upsert)
    requires forall i :: 0 <= i < |evs| ==> evs[i].action == Some(DeleteCode)
    ensures var r := ApplyEvents(s, evs, n, known, upsert);
      && r.noCache == s.noCache
      && (forall i :: 0 <= i < |evs| && evs[i].id.Some? ==> evs[i].id.value !in r.messages)
      && (forall k :: k in r.messages ==> k in s.messages && r.messages[k] == s.messages[k])
    decreases |evs|
  {
    if evs != [] {
      var init := evs[..|evs| - 1];
      DeletesOnly(s, init, n, known, upsert);
      assert forall i :: 0 <= i < |init| ==> init[i] == evs[i];
    }
  }
}
