/**
 * The three visibility listeners of TimelineVisibilityStateChangedListeners.kt
 * (features/home/room/detail/timeline/helper): which timeline callbacks fire, in
 * which order, when Epoxy reports a new visibility state.
 */
module TimelineVisibilityListeners {

  /** Epoxy's `VisibilityState` constants, as distinct values. */
  datatype VisibilityState =
    | Visible | Invisible | FocusedVisible | UnfocusedVisible
    | PartialImpressionVisible | PartialImpressionInvisible | FullImpressionVisible

  /** The part of a `TimelineEvent` a callback receives. */
  datatype TimelineEvent = TimelineEvent(eventId: string)

  /** One call on `TimelineEventController.Callback`. */
  datatype CallbackCall = OnReadMarkerVisible | OnEventVisible(event: TimelineEvent) | OnEventInvisible(event: TimelineEvent)

  predicate IsShownState(state: VisibilityState)
  {
    state in {Visible, FocusedVisible, UnfocusedVisible, FullImpressionVisible}
  }

  /** `ReadMarkerVisibilityStateChangedListener.onVisibilityStateChanged`;
      `hasCallback` is false when the callback is null. */
  method ReadMarkerOnVisibilityStateChanged(hasCallback: bool, state: VisibilityState) returns (calls: seq<CallbackCall>)
    ensures calls == (if hasCallback && IsShownState(state) then [OnReadMarkerVisible] else [])
  {
    calls := [];
    if state in [Visible, FocusedVisible, UnfocusedVisible, FullImpressionVisible] {
      if hasCallback {
        calls := calls + [OnReadMarkerVisible];
      }
    }
  }

  /** `TimelineEventVisibilityStateChangedListener.onVisibilityStateChanged`. */
  method EventOnVisibilityStateChanged(hasCallback: bool, event: TimelineEvent, state: VisibilityState) returns (calls: seq<CallbackCall>)
    ensures !hasCallback ==> calls == []
    ensures hasCallback && state == Visible ==> calls == [OnEventVisible(event)]
    ensures hasCallback && state == Invisible ==> calls == [OnEventInvisible(event)]
    ensures state != Visible && state != Invisible ==> calls == []
  {
    calls := [];
    if state == Visible {
      if hasCallback { calls := calls + [OnEventVisible(event)]; }
    } else if state == Invisible {
      if hasCallback { calls := calls + [OnEventInvisible(event)]; }
    }
  }

  /** `MergedTimelineEventVisibilityStateChangedListener.onVisibilityStateChanged`. */
  method MergedOnVisibilityStateChanged(hasCallback: bool, events: seq<TimelineEvent>, state: VisibilityState) returns (calls: seq<CallbackCall>)
    ensures !hasCallback || (state != Visible && state != Invisible) ==> calls == []
    ensures hasCallback && state == Visible ==>
      |calls| == |events| && forall i :: 0 <= i < |events| ==> calls[i] == OnEventVisible(events[i])
    ensures hasCallback && state == Invisible ==>
      |calls| == |events| && forall i :: 0 <= i < |events| ==> calls[i] == OnEventInvisible(events[i])
  {
    calls := [];
    if state == Visible {
      for i := 0 to |events|
        invariant hasCallback ==> |calls| == i && forall j :: 0 <= j < i ==> calls[j] == OnEventVisible(events[j])
        invariant !hasCallback ==> calls == []
      {
        if hasCallback { calls := calls + [OnEventVisible(events[i])]; }
      }
    } else if state == Invisible {
      for i := 0 to |events|
        invariant hasCallback ==> |calls| == i && forall j :: 0 <= j < i ==> calls[j] == OnEventInvisible(events[j])
        invariant !hasCallback ==> calls == []
      {
        if hasCallback { calls := calls + [OnEventInvisible(events[i])]; }
      }
    }
  }
}
