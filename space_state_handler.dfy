/**
 * `SpaceStateHandlerImpl` from the app package: which space (a Matrix room that
 * groups rooms) is selected, why it was selected, the back-navigation history of
 * spaces, and the per-session persistence of the selection.
 *
 * The observable `selectedSpaceDataSourceSc` is modelled as its current value plus
 * the history of values posted into it; the active session, the room-summary
 * lookup and the analytics sink are explicit inputs or recorded outputs.
 */
module SpaceState {
  import opened Wrappers
  import opened UiStateRepository

  /** `SelectSpaceFrom`: why the selection changed. */
  datatype SelectSpaceFrom = Init | Swipe | PersistSwipe | Select

  /** The part of a `RoomSummary` the handler reads. */
  datatype RoomSummary = RoomSummary(roomId: string)

  /** A session: its id and the rooms whose summaries it can resolve. */
  datatype Session = Session(sessionId: string, roomIds: set<string>)

  /** `Pair<RoomSummary?, SelectSpaceFrom>`. */
  datatype SelectedSpace = SelectedSpace(space: Option<RoomSummary>, from: SelectSpaceFrom)

  /** The analytics event `setCurrentSpace` captures. */
  datatype AnalyticsEvent = ViewRoom(isDM: bool, isSpace: bool)

  /** The outcome of `popSpaceBackstack`: `removeLast` throws on an empty list. */
  datatype PopOutcome = Popped(spaceId: Option<string>) | NoSuchElement

  /** Everything the handler reads and writes. */
  datatype HandlerState = HandlerState(
    current: Option<SelectedSpace>,          // selectedSpaceDataSourceSc.currentValue
    posts: seq<Option<SelectedSpace>>,       // every value the data source has held, oldest first
    backstack: seq<Option<string>>,          // the persisted space backstack
    analytics: seq<AnalyticsEvent>,          // events captured by the analytics tracker
    prefs: Prefs)                            // the UI-state SharedPreferences

  /** The data source's current value is the last value it was given. */
  predicate Valid(st: HandlerState)
  {
    |st.posts| > 0 && st.posts[|st.posts| - 1] == st.current
  }

  /** The state when the process starts: the data source holds `Optional.empty()`. */
  function Initial(backstack: seq<Option<string>>, prefs: Prefs): (st: HandlerState)
    ensures Valid(st) && st.current.None?
  {
    HandlerState(None, [None], backstack, [], prefs)
  }

  /** `session.getRoomSummary(id)`. */
  function GetRoomSummary(session: Session, id: string): (r: Option<RoomSummary>)
    ensures r.Some? <==> id in session.roomIds
    ensures r.Some? ==> r.value.roomId == id
  {
    if id in session.roomIds then Some(RoomSummary(id)) else None
  }

  /** `summary?.roomId`. */
  function RoomIdOf(summary: Option<RoomSummary>): (id: Option<string>)
    ensures id.Some? <==> summary.Some?
    ensures summary.Some? ==> id.value == summary.value.roomId
  {
    match summary
    case Some(s) => Some(s.roomId)
    case None => None
  }

  /** `session ?: activeSessionHolder.getSafeActiveSession()`. */
  function ResolveSession(session: Option<Session>, active: Option<Session>): Option<Session>
  {
    if session.Some? then session else active
  }

  /** `spaceId?.let { activeSession.getRoomSummary(spaceId) }`. */
  function SpaceToSet(session: Session, spaceId: Option<string>): (r: Option<RoomSummary>)
    ensures r.Some? ==> spaceId.Some? && spaceId.value in session.roomIds && r.value.roomId == spaceId.value
    ensures spaceId.Some? && spaceId.value in session.roomIds ==> r.Some?
  {
    match spaceId
    case Some(id) => GetRoomSummary(session, id)
    case None => None
  }

  /** The same-space guard: a selection exists and the requested id is its room id. */
  predicate SameSpaceSelected(current: Option<SelectedSpace>, spaceId: Option<string>)
  {
    current.Some? && spaceId == RoomIdOf(current.value.space)
  }

  /** Whether a call gets past the session check and the same-space guard. */
  predicate Proceeds(st: HandlerState, spaceId: Option<string>, session: Option<Session>, active: Option<Session>)
  {
    ResolveSession(session, active).Some? && !SameSpaceSelected(st.current, spaceId)
  }

  /** Whether a call may touch the backstack. */
  predicate PushesBackstack(isForwardNavigation: bool, from: SelectSpaceFrom)
  {
    isForwardNavigation && from in {Select, Init}
  }

  /** `addToBackstack`. */
  function AddToBackstack(backstack: seq<Option<string>>, spaceToLeave: Option<RoomSummary>, spaceToSet: Option<RoomSummary>): (r: seq<Option<string>>)
    ensures spaceToSet.Some? ==> |r| == |backstack| + 1 && r[..|backstack|] == backstack && r[|backstack|] == RoomIdOf(spaceToLeave)
    ensures spaceToSet.None? ==> r == []
  {
    if spaceToSet.Some? then backstack + [RoomIdOf(spaceToLeave)] else []
  }

  /** `post(value)` on the data source. */
  function Post(st: HandlerState, value: Option<SelectedSpace>): (r: HandlerState)
    ensures r.current == value && r.posts == st.posts + [value] && Valid(r)
    ensures r.backstack == st.backstack && r.analytics == st.analytics && r.prefs == st.prefs
  {
    st.(current := value, posts := st.posts + [value])
  }

  /** `setCurrentSpace`. */
  function SetCurrentSpaceStep(st: HandlerState, spaceId: Option<string>, session: Option<Session>, active: Option<Session>,
                               persistNow: bool, isForwardNavigation: bool, from: SelectSpaceFrom): (r: HandlerState)
    ensures !Proceeds(st, spaceId, session, active) ==> r == st
    ensures !PushesBackstack(isForwardNavigation, from) ==> r.backstack == st.backstack
    ensures !persistNow ==> r.prefs == st.prefs
    ensures Proceeds(st, spaceId, session, active) ==>
      var s := ResolveSession(session, active).value;
      var spaceToSet := SpaceToSet(s, spaceId);
      && r.current == Some(SelectedSpace(spaceToSet, from))
      && r.posts == st.posts + [r.current]
      && r.analytics == st.analytics + [ViewRoom(false, true)]
      && (persistNow ==> r.prefs == WithSelectedSpace(st.prefs, RoomIdOf(spaceToSet), s.sessionId))
      && (persistNow ==> SelectedSpaceOf(r.prefs, s.sessionId) == RoomIdOf(spaceToSet))
      && (PushesBackstack(isForwardNavigation, from) && spaceToSet.Some? ==>
            r.backstack == st.backstack + [SafeActiveSpaceId(st)])
      && (PushesBackstack(isForwardNavigation, from) && spaceToSet.None? ==> r.backstack == [])
  {
    var resolved := ResolveSession(session, active);
    if resolved.None? then st
    else
      var s := resolved.value;
      var spaceToLeave := if st.current.Some? then st.current.value.space else None;
      var spaceToSet := SpaceToSet(s, spaceId);
      if SameSpaceSelected(st.current, spaceId) then st
      else
        var backstack := if PushesBackstack(isForwardNavigation, from) then AddToBackstack(st.backstack, spaceToLeave, spaceToSet) else st.backstack;
        var prefs := if persistNow then WithSelectedSpace(st.prefs, RoomIdOf(spaceToSet), s.sessionId) else st.prefs;
        SelectedSpaceStoreGetAt(st.prefs, RoomIdOf(spaceToSet), s.sessionId);
        Post(st.(analytics := st.analytics + [ViewRoom(false, true)], backstack := backstack, prefs := prefs),
             Some(SelectedSpace(spaceToSet, from)))
  }

  /** `setCurrentSpace` past its guards: record, update the backstack and the store, post. */
  lemma SetCurrentSpaceStepProceeds(st: HandlerState, spaceId: Option<string>, session: Option<Session>, active: Option<Session>,
                                    persistNow: bool, isForwardNavigation: bool, from: SelectSpaceFrom)
    requires Proceeds(st, spaceId, session, active)
    ensures
      var s := ResolveSession(session, active).value;
      var spaceToLeave := if st.current.Some? then st.current.value.space else None;
      var spaceToSet := SpaceToSet(s, spaceId);
      SetCurrentSpaceStep(st, spaceId, session, active, persistNow, isForwardNavigation, from)
      == Post(st.(analytics := st.analytics + [ViewRoom(false, true)],
                  backstack := if PushesBackstack(isForwardNavigation, from) then AddToBackstack(st.backstack, spaceToLeave, spaceToSet) else st.backstack,
                  prefs := if persistNow then WithSelectedSpace(st.prefs, RoomIdOf(spaceToSet), s.sessionId) else st.prefs),
              Some(SelectedSpace(spaceToSet, from)))
  {
  }

  /** Reading back a freshly stored selected space, stated for use inside a function body. */
  lemma SelectedSpaceStoreGetAt(prefs: Prefs, spaceId: Option<string>, sessionId: string)
    ensures SelectedSpaceOf(WithSelectedSpace(prefs, spaceId, sessionId), sessionId) == spaceId
  {
    SelectedSpaceStoreGet(prefs, spaceId, sessionId, sessionId);
  }

  /** `popSpaceBackstack`. */
  function PopStep(backstack: seq<Option<string>>): (r: (PopOutcome, seq<Option<string>>))
    ensures |backstack| == 0 ==> r == (NoSuchElement, backstack)
    ensures |backstack| > 0 ==> r.0 == Popped(backstack[|backstack| - 1]) && r.1 + [backstack[|backstack| - 1]] == backstack
  {
    if |backstack| == 0 then (NoSuchElement, backstack)
    else (Popped(backstack[|backstack| - 1]), backstack[..|backstack| - 1])
  }

  /** `getSafeActiveSpaceId`. */
  function SafeActiveSpaceId(st: HandlerState): (id: Option<string>)
    ensures st.current.None? ==> id.None?
    ensures st.current.Some? ==> id == RoomIdOf(st.current.value.space)
  {
    if st.current.Some? then RoomIdOf(st.current.value.space) else None
  }

  /** `getCurrentSpace`: the selected space resolved again in the active session. */
  function CurrentSpace(st: HandlerState, active: Option<Session>): (r: Option<RoomSummary>)
    ensures r.Some? <==> st.current.Some? && st.current.value.space.Some? && active.Some?
                         && st.current.value.space.value.roomId in active.value.roomIds
    ensures r.Some? ==> r.value.roomId == st.current.value.space.value.roomId && SafeActiveSpaceId(st) == Some(r.value.roomId)
  {
    if st.current.Some? && st.current.value.space.Some? && active.Some? then
      GetRoomSummary(active.value, st.current.value.space.value.roomId)
    else None
  }

  /** `persistSelectedSpace`. */
  function PersistSelectedSpaceStep(st: HandlerState, active: Option<Session>): (r: HandlerState)
    ensures st.current.None? || active.None? ==> r == st
    ensures r.backstack == st.backstack && r.analytics == st.analytics
    ensures st.current.Some? && active.Some? ==>
      && r.current.Some?
      && r.current.value.space == st.current.value.space
      && r.current.value.from == (if st.current.value.from == Swipe then PersistSwipe else st.current.value.from)
      && r.posts == (if st.current.value.from == Swipe then st.posts + [r.current] else st.posts)
      && r.prefs == WithSelectedSpace(st.prefs, SafeActiveSpaceId(st), active.value.sessionId)
      && SelectedSpaceOf(r.prefs, active.value.sessionId) == SafeActiveSpaceId(st)
  {
    if st.current.None? then st
    else
      var currentValue := st.current.value;
      if active.None? then st
      else
        var posted := if currentValue.from == Swipe then Post(st, Some(SelectedSpace(currentValue.space, PersistSwipe))) else st;
        SelectedSpaceStoreGetAt(posted.prefs, RoomIdOf(currentValue.space), active.value.sessionId);
        posted.(prefs := WithSelectedSpace(posted.prefs, RoomIdOf(currentValue.space), active.value.sessionId))
  }

  /** The persistence part of `onPause`. */
  function OnPauseStep(st: HandlerState, active: Option<Session>): (r: HandlerState)
    ensures active.None? ==> r == st
    ensures r.current == st.current && r.posts == st.posts && r.backstack == st.backstack && r.analytics == st.analytics
    ensures active.Some? ==> r.prefs == WithSelectedSpace(st.prefs, SafeActiveSpaceId(st), active.value.sessionId)
    ensures active.Some? ==> SelectedSpaceOf(r.prefs, active.value.sessionId) == SafeActiveSpaceId(st)
  {
    if active.None? then st
    else
      SelectedSpaceStoreGetAt(st.prefs, SafeActiveSpaceId(st), active.value.sessionId);
      st.(prefs := WithSelectedSpace(st.prefs, SafeActiveSpaceId(st), active.value.sessionId))
  }

  /** `getSelectedSpaceFlow`: the space of every posted value. */
  function SpaceFlow(posts: seq<Option<SelectedSpace>>): (r: seq<Option<RoomSummary>>)
    ensures |r| == |posts|
    ensures forall i :: 0 <= i < |posts| ==> r[i] == (if posts[i].Some? then posts[i].value.space else None)
  {
    if |posts| == 0 then []
    else [if posts[0].Some? then posts[0].value.space else None] + SpaceFlow(posts[1..])
  }

  predicate IsSwipe(v: Option<SelectedSpace>) { v.Some? && v.value.from == Swipe }

  /** `getSelectedSpaceFlowIgnoreSwipe`: the posted values whose origin is not `SWIPE`. */
  function IgnoreSwipe(posts: seq<Option<SelectedSpace>>): (r: seq<Option<SelectedSpace>>)
    ensures |r| <= |posts|
  {
    if |posts| == 0 then []
    else (if IsSwipe(posts[0]) then [] else [posts[0]]) + IgnoreSwipe(posts[1..])
  }

  /** A value reaches the ignore-swipe flow exactly when it was posted with an origin
      other than `SWIPE`. */
  lemma {:induction false} IgnoreSwipeMembers(posts: seq<Option<SelectedSpace>>)
    ensures forall v :: v in IgnoreSwipe(posts) <==> v in posts && !IsSwipe(v)
    decreases |posts|
  {
    if |posts| != 0 {
      IgnoreSwipeMembers(posts[1..]);
      assert posts == [posts[0]] + posts[1..];
    }
  }

  /** The filter keeps the order of the stream: it distributes over concatenation. */
  lemma {:induction false} IgnoreSwipeAppend(a: seq<Option<SelectedSpace>>, b: seq<Option<SelectedSpace>>)
    ensures IgnoreSwipe(a + b) == IgnoreSwipe(a) + IgnoreSwipe(b)
    decreases |a|
  {
    if |a| == 0 {
      assert a + b == b;
    } else {
      var head := if IsSwipe(a[0]) then [] else [a[0]];
      assert (a + b)[0] == a[0];
      assert (a + b)[1..] == a[1..] + b;
      assert IgnoreSwipe(a) == head + IgnoreSwipe(a[1..]);
      assert IgnoreSwipe(a + b) == head + IgnoreSwipe(a[1..] + b);
      IgnoreSwipeAppend(a[1..], b);
      assert head + (IgnoreSwipe(a[1..]) + IgnoreSwipe(b)) == (head + IgnoreSwipe(a[1..])) + IgnoreSwipe(b);
    }
  }

  /** A new subscriber to the selected-space flow first receives the current selection. */
  lemma FlowReplaysCurrent(st: HandlerState)
    requires Valid(st)
    ensures SpaceFlow(st.posts)[|st.posts| - 1] == (if st.current.Some? then st.current.value.space else None)
  {
  }

  /** Every step keeps the data source's current value equal to the last value posted. */
  lemma StepsPreserveValid(st: HandlerState, spaceId: Option<string>, session: Option<Session>, active: Option<Session>,
                           persistNow: bool, isForwardNavigation: bool, from: SelectSpaceFrom)
    requires Valid(st)
    ensures Valid(SetCurrentSpaceStep(st, spaceId, session, active, persistNow, isForwardNavigation, from))
    ensures Valid(PersistSelectedSpaceStep(st, active))
    ensures Valid(OnPauseStep(st, active))
    ensures Valid(st.(backstack := PopStep(st.backstack).1))
  {
  }

  /** Pushing a space and popping gives back the space that was left and the old backstack. */
  lemma PushThenPop(backstack: seq<Option<string>>, spaceToLeave: Option<RoomSummary>, spaceToSet: RoomSummary)
    ensures PopStep(AddToBackstack(backstack, spaceToLeave, Some(spaceToSet))) == (Popped(RoomIdOf(spaceToLeave)), backstack)
  {
    var pushed := backstack + [RoomIdOf(spaceToLeave)];
    assert pushed[..|pushed| - 1] == backstack;
  }

  /** After `persistSelectedSpace` with a session, the origin is never `SWIPE`. */
  lemma PersistLeavesNoSwipe(st: HandlerState, active: Option<Session>)
    requires st.current.Some? && active.Some?
    ensures !IsSwipe(PersistSelectedSpaceStep(st, active).current)
  {
  }

  /** The scenario: select space1 then space2 from "all chats", then pop. */
  lemma SelectSelectPopScenario(prefs: Prefs, session: Session)
    requires "space1" in session.roomIds && "space2" in session.roomIds
    ensures
      var s0 := Initial([], prefs).(current := Some(SelectedSpace(None, Init)), posts := [Some(SelectedSpace(None, Init))]);
      var s1 := SetCurrentSpaceStep(s0, Some("space1"), Some(session), None, false, true, Select);
      var s2 := SetCurrentSpaceStep(s1, Some("space2"), Some(session), None, false, true, Select);
      && s1.backstack == [None]
      && SafeActiveSpaceId(s1) == Some("space1")
      && s2.backstack == [None, Some("space1")]
      && PopStep(s2.backstack) == (Popped(Some("space1")), [None])
  {
    var s0 := Initial([], prefs).(current := Some(SelectedSpace(None, Init)), posts := [Some(SelectedSpace(None, Init))]);
    var s1 := SetCurrentSpaceStep(s0, Some("space1"), Some(session), None, false, true, Select);
    assert s1.current == Some(SelectedSpace(Some(RoomSummary("space1")), Select));
    var s2 := SetCurrentSpaceStep(s1, Some("space2"), Some(session), None, false, true, Select);
    assert s2.backstack == [None] + [Some("space1")];
    assert [None, Some("space1")][..1] == [None];
  }

  /** The handler object. */
  class SpaceStateHandlerImpl {
    var current: Option<SelectedSpace>
    var posts: seq<Option<SelectedSpace>>
    var backstack: seq<Option<string>>
    var analytics: seq<AnalyticsEvent>
    const uiStateRepository: SharedPreferencesUiStateRepository

    function State(): HandlerState
      reads this, uiStateRepository
    {
      HandlerState(current, posts, backstack, analytics, uiStateRepository.prefs)
    }

    constructor (repository: SharedPreferencesUiStateRepository, persistedBackstack: seq<Option<string>>)
      ensures uiStateRepository == repository
      ensures State() == Initial(persistedBackstack, repository.prefs)
    {
      current := None;
      posts := [None];
      backstack := persistedBackstack;
      analytics := [];
      uiStateRepository := repository;
    }

    method PostValue(value: Option<SelectedSpace>)
      modifies this
      ensures State() == Post(old(State()), value)
    {
      current := value;
      posts := posts + [value];
    }

    method SetCurrentSpace(spaceId: Option<string>, session: Option<Session>, active: Option<Session>,
                           persistNow: bool, isForwardNavigation: bool, from: SelectSpaceFrom)
      modifies this, uiStateRepository
      ensures State() == SetCurrentSpaceStep(old(State()), spaceId, session, active, persistNow, isForwardNavigation, from)
    {
      ghost var st := State();
      var activeSession := ResolveSession(session, active);
      if activeSession.None? {
        assert !Proceeds(st, spaceId, session, active);
        return;
      }
      var currentValue := current;
      var spaceToLeave := if currentValue.Some? then currentValue.value.space else None;
      var spaceToSet := SpaceToSet(activeSession.value, spaceId);
      var sameSpaceSelected := currentValue.Some? && spaceId == RoomIdOf(spaceToLeave);
      if sameSpaceSelected {
        assert !Proceeds(st, spaceId, session, active);
        return;
      }
      SetCurrentSpaceStepProceeds(st, spaceId, session, active, persistNow, isForwardNavigation, from);
      ApplySelection(activeSession.value.sessionId, spaceToLeave, spaceToSet, persistNow, isForwardNavigation, from);
    }

    /** The part of `setCurrentSpace` past its guards: analytics, backstack, store, post. */
    method ApplySelection(sessionId: string, spaceToLeave: Option<RoomSummary>, spaceToSet: Option<RoomSummary>,
                          persistNow: bool, isForwardNavigation: bool, from: SelectSpaceFrom)
      modifies this, uiStateRepository
      ensures State() == Post(old(State()).(analytics := old(analytics) + [ViewRoom(false, true)],
                                            backstack := if PushesBackstack(isForwardNavigation, from) then AddToBackstack(old(backstack), spaceToLeave, spaceToSet) else old(backstack),
                                            prefs := if persistNow then WithSelectedSpace(old(uiStateRepository.prefs), RoomIdOf(spaceToSet), sessionId) else old(uiStateRepository.prefs)),
                              Some(SelectedSpace(spaceToSet, from)))
    {
      analytics := analytics + [ViewRoom(false, true)];
      if isForwardNavigation && from in {Select, Init} {
        AddToBackstackInPlace(spaceToLeave, spaceToSet);
      }
      if persistNow {
        uiStateRepository.StoreSelectedSpace(RoomIdOf(spaceToSet), sessionId);
      }
      PostValue(Some(SelectedSpace(spaceToSet, from)));
    }

    method AddToBackstackInPlace(spaceToLeave: Option<RoomSummary>, spaceToSet: Option<RoomSummary>)
      modifies this
      ensures backstack == AddToBackstack(old(backstack), spaceToLeave, spaceToSet)
      ensures current == old(current) && posts == old(posts) && analytics == old(analytics)
    {
      if spaceToSet.Some? {
        var currentPersistedBackstack := backstack;
        currentPersistedBackstack := currentPersistedBackstack + [RoomIdOf(spaceToLeave)];
        backstack := currentPersistedBackstack;
      } else {
        backstack := [];
      }
    }

    method PopSpaceBackstack() returns (outcome: PopOutcome)
      modifies this
      ensures (outcome, backstack) == PopStep(old(backstack))
      ensures current == old(current) && posts == old(posts) && analytics == old(analytics)
    {
      var list := backstack;
      if |list| == 0 {
        return NoSuchElement;
      }
      var poppedSpaceId := list[|list| - 1];
      list := list[..|list| - 1];
      backstack := list;
      return Popped(poppedSpaceId);
    }

    /** `getSpaceBackstack`: the persisted backstack that pushes and pops update. */
    function GetSpaceBackstack(): (r: seq<Option<string>>)
      reads this, uiStateRepository
      ensures r == State().backstack
      ensures |r| > 0 ==> PopStep(r).0 == Popped(r[|r| - 1])
    {
      backstack
    }

    function GetSafeActiveSpaceId(): (id: Option<string>)
      reads this, uiStateRepository
      ensures id == SafeActiveSpaceId(State())
    {
      if current.Some? then RoomIdOf(current.value.space) else None
    }

    method OnPause(active: Option<Session>)
      modifies uiStateRepository
      ensures State() == OnPauseStep(old(State()), active)
    {
      if active.None? {
        return;
      }
      uiStateRepository.StoreSelectedSpace(GetSafeActiveSpaceId(), active.value.sessionId);
    }

    method PersistSelectedSpace(active: Option<Session>)
      modifies this, uiStateRepository
      ensures State() == PersistSelectedSpaceStep(old(State()), active)
    {
      if current.None? {
        return;
      }
      var currentValue := current.value;
      var currentMethod := currentValue.space;
      if active.None? {
        return;
      }
      if currentValue.from == Swipe {
        PostValue(Some(SelectedSpace(currentMethod, PersistSwipe)));
      }
      uiStateRepository.StoreSelectedSpace(RoomIdOf(currentMethod), active.value.sessionId);
    }
  }
}
