/** The sync bookkeeping of the counter store: the event cursor
    (`lastEventID`) that `fetchEvents` advances, the unread counters the
    count snapshot replaces, and the per-label fetch windows that
    `fetchMessages` records. */
module EventCursor {
  import opened Common
  import opened Counters
  import opened Locations
  import opened MessageEvents

  // ---------------------------------------------------------------------
  // processEvents(counts:)

  /** An absent or empty snapshot changes nothing and sets no badge.
      Otherwise each counter ends as the server's last value for it, or
      zero when the server sent none, whatever it was before, and the
      badge is the server's inbox count, never negative. */
  function ProcessCounts(c: Store, counts: Option<seq<CountEntry>>): (r: (Store, Option<int>))
    ensures counts.None? || counts == Some([]) ==> r == (c, None)
    ensures counts.Some? && counts.value != [] ==>
      && (forall k :: Get(r.0, k) == SnapshotValue(counts.value, k).GetOr(0))
      && r.1.Some? && r.1.value >= 0
      && r.1.value == Max0(SnapshotValue(counts.value, InboxID).GetOr(0))
  {
    if counts.None? || |counts.value| == 0 then (c, None)
    else
      var es := counts.value;
      var c1 := ApplyCounts(ResetAll(c), es);
      assert forall k :: Get(c1, k) == SnapshotValue(es, k).GetOr(0) by {
        forall k ensures Get(c1, k) == SnapshotValue(es, k).GetOr(0) { SnapshotReplaces(c, es, k); }
      }
      (c1, Some(Max0(Get(c1, InboxID))))
  }

  // ---------------------------------------------------------------------
  // fetchEvents: which branch a response takes.

  datatype RefreshFlag = RefreshAll | RefreshMail | RefreshContacts

  /** The parts of an `EventCheckResponse` the branching reads. */
  datatype EventsResponse = EventsResponse(
    refresh: set<RefreshFlag>,
    code: int,
    eventID: string,
    messages: Option<seq<MessageEvent>>,
    counts: Option<seq<CountEntry>>)

  /** The code that forces a full refresh when the check fails. */
  const RefreshCode := 18001
  /** The success code of a response without message events. */
  const OkCode := 1000

  datatype Branch = NoResponse | FullRefresh | ContactsRefresh | Incremental | NoMessages

  function BranchOf(res: Option<EventsResponse>, hasError: bool): Branch {
    if res.None? then NoResponse
    else
      var e := res.value;
      if RefreshAll in e.refresh || RefreshMail in e.refresh || (hasError && e.code == RefreshCode) then FullRefresh
      else if RefreshContacts in e.refresh then ContactsRefresh
      else if e.messages.Some? then Incremental
      else NoMessages
  }

  /** The per-label fetch window (`UpdateTime`). */
  datatype Window = Window(start: int, end: int, update: int, total: int)

  /** The cursor, the counters and the windows. */
  datatype Sync = Sync(lastEventID: string, counters: Store, windows: map<string, Window>)

  /** What handling one response does: the new sync state, whether the
      local messages were wiped for a refetch, the badge, and the message
      events reported to the caller. */
  datatype Step = Step(sync: Sync, wiped: bool, badge: Option<int>, reported: seq<MessageEvent>)

  /** The message events reported outward: the inserts, in log order. */
  function Inserts(evs: seq<MessageEvent>): (r: seq<MessageEvent>)
    ensures forall x :: x in r <==> x in evs && x.action == Some(InsertCode)
    ensures |r| <= |evs|
    decreases |evs|
  {
    if evs == [] then []
    else (if evs[0].action == Some(InsertCode) then [evs[0]] else []) + Inserts(evs[1..])
  }

  /** The response handling of `fetchEvents`, given what the calls it
      makes return: `latest` is the latest-event-id answer (None when the
      call failed), `refetchOk` whether the refetch after a wipe succeeded,
      and `saveOk` whether applying the message events saved. A full
      refresh with a non-empty latest id wipes the messages and sets the
      badge to 0, and once the refetch succeeds, clears the store and moves
      the cursor to that id.
      The incremental branch moves the cursor to the response's id and
      applies the counts only when the events saved; a response without
      message events does so only with the success code. */
  function OnEvents(st: Sync, res: Option<EventsResponse>, hasError: bool,
                    latest: Option<string>, refetchOk: bool, saveOk: bool): Step
  {
    match BranchOf(res, hasError)
    case NoResponse => Step(st, false, None, [])
    case FullRefresh =>
      if latest.Some? && latest.value != "" then
        Step(if refetchOk then Sync(latest.value, map[], map[]) else st, true, Some(0), [])
      else Step(st, false, None, [])
    case ContactsRefresh => Step(st, false, None, [])
    case Incremental =>
      if saveOk then
        var (c, badge) := ProcessCounts(st.counters, res.value.counts);
        Step(st.(lastEventID := res.value.eventID, counters := c), false, badge, Inserts(res.value.messages.value))
      else Step(st, false, None, [])
    case NoMessages =>
      if res.value.code == OkCode then
        var (c, badge) := ProcessCounts(st.counters, res.value.counts);
        Step(st.(lastEventID := res.value.eventID, counters := c), false, badge, [])
      else Step(st, false, None, [])
  }

  /** The cursor moves only on a success path: to the latest id after a
      successful refetch, or to the response's id after saved events or a
      success code; every other response leaves it, the counters and the
      windows alone. Exactly the full refresh with a usable latest id wipes
      the messages, which sets the badge to 0 and reports nothing. */
  lemma CursorOnlyOnSuccess(st: Sync, res: Option<EventsResponse>, hasError: bool,
                            latest: Option<string>, refetchOk: bool, saveOk: bool)
    ensures var r := OnEvents(st, res, hasError, latest, refetchOk, saveOk);
      var b := BranchOf(res, hasError);
      && (b == FullRefresh && latest.Some? && latest.value != "" && refetchOk ==> r.sync.lastEventID == latest.value)
      && (b == Incremental && saveOk ==> r.sync.lastEventID == res.value.eventID)
      && (b == NoMessages && res.value.code == OkCode ==> r.sync.lastEventID == res.value.eventID)
      && ((!(b == FullRefresh && latest.Some? && latest.value != "" && refetchOk)
           && !(b == Incremental && saveOk)
           && !(b == NoMessages && res.value.code == OkCode)) ==> r.sync == st)
      && (r.wiped <==> b == FullRefresh && latest.Some? && latest.value != "")
      && (r.wiped ==> r.badge == Some(0) && r.reported == [])
  {
  }

  /** Only inserts are reported, all of them and in log order, and only
      when the events saved. */
  lemma ReportedInserts(st: Sync, res: EventsResponse, hasError: bool,
                        latest: Option<string>, refetchOk: bool, saveOk: bool)
    requires BranchOf(Some(res), hasError) == Incremental
    ensures var r := OnEvents(st, Some(res), hasError, latest, refetchOk, saveOk);
      && (saveOk ==> forall x :: x in r.reported <==> x in res.messages.value && x.action == Some(InsertCode))
      && (!saveOk ==> r.reported == [])
  {
  }

  /** A refresh of contacts alone changes nothing here. */
  lemma ContactsOnly(st: Sync, res: EventsResponse, hasError: bool,
                     latest: Option<string>, refetchOk: bool, saveOk: bool)
    requires RefreshContacts in res.refresh && RefreshAll !in res.refresh && RefreshMail !in res.refresh
    requires !(hasError && res.code == RefreshCode)
    ensures OnEvents(st, Some(res), hasError, latest, refetchOk, saveOk) == Step(st, false, None, [])
  {
  }

  /** The error code 18001 forces a full refresh only when the check failed. */
  lemma RefreshCodeNeedsError(res: EventsResponse)
    requires res.code == RefreshCode && RefreshAll !in res.refresh && RefreshMail !in res.refresh
    ensures BranchOf(Some(res), true) == FullRefresh
    ensures BranchOf(Some(res), false) != FullRefresh
  {
  }

  // ---------------------------------------------------------------------
  // The fetch window of fetchMessages.

  /** The window a label gets when none is stored yet. */
  const NewWindow := Window(0, 0, 0, 0)

  const Int32Min := -0x8000_0000
  const Int32Max := 0x7FFF_FFFF

  /** After fetching messages for a label: when the store holds no window
      for it, the window starts at the first message's time and takes the
      total (a first message without a time, or a total outside 32 bits,
      traps: None); the end moves to the last message's time when it has
      one, and the update stamp to now. An empty page records nothing. */
  function RecordWindow(ws: map<string, Window>, labelID: string, times: seq<Option<int>>, total: int, now: int): (r: Option<map<string, Window>>)
    ensures times == [] ==> r == Some(ws)
    ensures r.Some? && times != [] ==>
      && r.value.Keys == ws.Keys + {labelID}
      && (forall k :: k in ws && k != labelID ==> r.value[k] == ws[k])
      && r.value[labelID].update == now
      && (labelID in ws ==> r.value[labelID].start == ws[labelID].start && r.value[labelID].total == ws[labelID].total)
      && (labelID !in ws ==> Some(r.value[labelID].start) == times[0] && r.value[labelID].total == total)
    ensures times != [] && labelID !in ws ==> (r.None? <==> times[0].None? || total < Int32Min || total > Int32Max)
    ensures times != [] && labelID in ws ==> r.Some?
  {
    if times == [] then Some(ws)
    else
      var isNew := labelID !in ws;
      var w := if isNew then NewWindow else ws[labelID];
      if isNew && (times[0].None? || total < Int32Min || total > Int32Max) then None
      else
        var w1 := if isNew then w.(start := times[0].value, total := total) else w;
        var w2 := if times[|times| - 1].Some? then w1.(end := times[|times| - 1].value) else w1;
        Some(ws[labelID := w2.(update := now)])
  }

  /** The end of a recorded window is the last message's time when it
      has one, and the previous end otherwise. */
  lemma WindowEnd(ws: map<string, Window>, labelID: string, times: seq<Option<int>>, total: int, now: int)
    requires times != []
    requires RecordWindow(ws, labelID, times, total, now).Some?
    ensures var r := RecordWindow(ws, labelID, times, total, now).value;
      r[labelID].end == (if times[|times| - 1].Some? then times[|times| - 1].value
                         else if labelID in ws then ws[labelID].end else NewWindow.end)
  {
  }
}
