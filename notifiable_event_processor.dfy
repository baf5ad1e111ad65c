/**
 * `NotifiableEventProcessor.process` from features/notifications: decide for each
 * queued notification whether it is kept or removed, and add a removal for every
 * notification already on screen that is no longer queued.
 */
module NotifiableEventProcessor {
  import opened Wrappers

  /** `EventType.REDACTION` of the Matrix client-server API. */
  const Redaction: string := "m.room.redaction"

  /** The four kinds of notifiable events; only the fields the triage reads are kept. */
  datatype NotifiableEvent =
    | InviteEvent(eventId: string, roomId: string)
    | MessageEvent(eventId: string, roomId: string, threadId: Option<string>)
    | JitsiEvent(eventId: string, roomId: string, isReceived: Option<bool>)
    | SimpleEvent(eventId: string, eventType: string)

  datatype ProcessedType = Keep | Remove

  datatype ProcessedEvent = ProcessedEvent(processedType: ProcessedType, event: NotifiableEvent)

  /**
   * The collaborators whose bodies are not part of this model: the auto-accept
   * setting, `shouldIgnoreMessageEventInRoom`, `OutdatedEventDetector.isMessageOutdated`
   * and `NotifiableJitsiEvent.updateReceivedStatus`.
   */
  datatype Collaborators = Collaborators(
    hideInvites: bool,
    shouldIgnoreMessageEventInRoom: (NotifiableEvent, Option<string>, Option<string>) -> bool,
    isMessageOutdated: NotifiableEvent -> bool,
    updateReceivedStatus: NotifiableEvent -> NotifiableEvent)

  /** The `when` that classifies one queued event. */
  function Classify(c: Collaborators, e: NotifiableEvent, currentRoomId: Option<string>, currentThreadId: Option<string>): (t: ProcessedType)
    ensures e.InviteEvent? ==> (t == Remove <==> c.hideInvites)
    ensures e.MessageEvent? ==>
      (t == Remove <==> c.shouldIgnoreMessageEventInRoom(e, currentRoomId, currentThreadId) || c.isMessageOutdated(e))
    ensures e.JitsiEvent? ==> (t == Keep <==> e.isReceived != Some(true))
    ensures e.SimpleEvent? ==> (t == Remove <==> e.eventType == Redaction)
  {
    match e
    case InviteEvent(_, _) => if c.hideInvites then Remove else Keep
    case MessageEvent(_, _, _) =>
      if c.shouldIgnoreMessageEventInRoom(e, currentRoomId, currentThreadId) then Remove
      else if c.isMessageOutdated(e) then Remove
      else Keep
    case JitsiEvent(_, _, isReceived) => if isReceived != Some(true) then Keep else Remove
    case SimpleEvent(_, eventType) => if eventType == Redaction then Remove else Keep
  }

  /** A Jitsi event is replaced by its `updateReceivedStatus()`; others pass unchanged. */
  function Refresh(c: Collaborators, e: NotifiableEvent): (r: NotifiableEvent)
    ensures !e.JitsiEvent? ==> r == e
  {
    if e.JitsiEvent? then c.updateReceivedStatus(e) else e
  }

  /** `queuedEvents.map { … }`. */
  function ProcessQueued(c: Collaborators, queued: seq<NotifiableEvent>, currentRoomId: Option<string>, currentThreadId: Option<string>): (r: seq<ProcessedEvent>)
    ensures |r| == |queued|
    ensures forall i :: 0 <= i < |queued| ==>
      r[i] == ProcessedEvent(Classify(c, queued[i], currentRoomId, currentThreadId), Refresh(c, queued[i]))
  {
    if |queued| == 0 then []
    else [ProcessedEvent(Classify(c, queued[0], currentRoomId, currentThreadId), Refresh(c, queued[0]))]
         + ProcessQueued(c, queued[1..], currentRoomId, currentThreadId)
  }

  /** `queuedEvents.none { it.eventId == eventId }`. */
  predicate NotQueued(queued: seq<NotifiableEvent>, eventId: string)
  {
    forall i :: 0 <= i < |queued| ==> queued[i].eventId != eventId
  }

  /** `renderedEvents.filter { … }`: the rendered entries whose event is no longer queued. */
  function Unqueued(queued: seq<NotifiableEvent>, rendered: seq<ProcessedEvent>): (r: seq<ProcessedEvent>)
    ensures |r| <= |rendered|
    ensures forall x :: x in r <==> x in rendered && NotQueued(queued, x.event.eventId)
  {
    if |rendered| == 0 then []
    else (if NotQueued(queued, rendered[0].event.eventId) then [rendered[0]] else [])
         + Unqueued(queued, rendered[1..])
  }

  /** `.map { ProcessedEvent(REMOVE, …) }` over the filtered rendered entries. */
  function RemoveAll(c: Collaborators, rendered: seq<ProcessedEvent>): (r: seq<ProcessedEvent>)
    ensures |r| == |rendered|
    ensures forall i :: 0 <= i < |rendered| ==> r[i] == ProcessedEvent(Remove, Refresh(c, rendered[i].event))
  {
    if |rendered| == 0 then []
    else [ProcessedEvent(Remove, Refresh(c, rendered[0].event))] + RemoveAll(c, rendered[1..])
  }

  /** `process`: the removal diff, then one entry per queued event in queue order. */
  function Process(c: Collaborators, queued: seq<NotifiableEvent>, currentRoomId: Option<string>, currentThreadId: Option<string>, rendered: seq<ProcessedEvent>): (r: seq<ProcessedEvent>)
    ensures var diff := Unqueued(queued, rendered);
      && |r| == |diff| + |queued|
      && (forall j :: 0 <= j < |diff| ==> r[j] == ProcessedEvent(Remove, Refresh(c, diff[j].event)))
      && (forall i :: 0 <= i < |queued| ==>
            r[|diff| + i] == ProcessedEvent(Classify(c, queued[i], currentRoomId, currentThreadId), Refresh(c, queued[i])))
  {
    var removed := RemoveAll(c, Unqueued(queued, rendered));
    var processed := ProcessQueued(c, queued, currentRoomId, currentThreadId);
    assert forall j :: 0 <= j < |removed| ==> (removed + processed)[j] == removed[j];
    assert forall i :: 0 <= i < |processed| ==> (removed + processed)[|removed| + i] == processed[i];
    removed + processed
  }

  /** The filter keeps the rendered order: it distributes over concatenation. */
  lemma {:induction false} UnqueuedAppend(queued: seq<NotifiableEvent>, a: seq<ProcessedEvent>, b: seq<ProcessedEvent>)
    ensures Unqueued(queued, a + b) == Unqueued(queued, a) + Unqueued(queued, b)
    decreases |a|
  {
    if |a| == 0 {
      assert a + b == b;
    } else {
      assert (a + b)[0] == a[0];
      assert (a + b)[1..] == a[1..] + b;
      UnqueuedAppend(queued, a[1..], b);
    }
  }

  /** A single rendered entry appears in the diff exactly when its event is not queued. */
  lemma UnqueuedSingle(queued: seq<NotifiableEvent>, x: ProcessedEvent)
    ensures Unqueued(queued, [x]) == if NotQueued(queued, x.event.eventId) then [x] else []
  {
    assert [x][1..] == [];
  }

  /** With nothing queued, the diff is every rendered entry, in rendered order. */
  lemma {:induction false} NothingQueuedKeepsAll(rendered: seq<ProcessedEvent>)
    ensures Unqueued([], rendered) == rendered
    decreases |rendered|
  {
    if |rendered| != 0 {
      NothingQueuedKeepsAll(rendered[1..]);
      assert rendered == [rendered[0]] + rendered[1..];
    }
  }

  /** With nothing queued, every rendered event is removed, in rendered order. */
  lemma NothingQueuedRemovesAll(c: Collaborators, rendered: seq<ProcessedEvent>, currentRoomId: Option<string>, currentThreadId: Option<string>)
    ensures Process(c, [], currentRoomId, currentThreadId, rendered) == RemoveAll(c, rendered)
  {
    NothingQueuedKeepsAll(rendered);
    assert ProcessQueued(c, [], currentRoomId, currentThreadId) == [];
  }

  /** A rendered event that is still queued produces no removal in the diff. */
  lemma {:induction false} StillQueuedNotInDiff(queued: seq<NotifiableEvent>, rendered: seq<ProcessedEvent>)
    requires forall j :: 0 <= j < |rendered| ==> !NotQueued(queued, rendered[j].event.eventId)
    ensures Unqueued(queued, rendered) == []
    decreases |rendered|
  {
    if |rendered| != 0 {
      StillQueuedNotInDiff(queued, rendered[1..]);
    }
  }
}
