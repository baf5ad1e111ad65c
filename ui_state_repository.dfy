/**
 * `SharedPreferencesUiStateRepository` from features/ui: the room-list display
 * mode, the selected space per session and the custom room-directory homeservers
 * per session, kept in Android SharedPreferences (modelled as a map).
 */
module UiStateRepository {
  import opened Wrappers

  /** `RoomListDisplayMode`. */
  datatype DisplayMode = Notifications | People | Rooms | All | Filtered

  /** The typed values SharedPreferences holds. */
  datatype PrefValue = IntPref(i: int) | StringPref(s: string) | StringSetPref(ss: set<string>)

  type Prefs = map<string, PrefValue>

  const KeyDisplayMode: string := "UI_STATE_DISPLAY_MODE"
  const ValueDisplayModeCatchup: int := 0
  const ValueDisplayModePeople: int := 1
  const ValueDisplayModeRooms: int := 2
  const ValueDisplayModeAll: int := 42
  const KeySelectedSpace: string := "UI_STATE_SELECTED_SPACE"
  const KeyCustomDirectoryHomeserver: string := "KEY_CUSTOM_DIRECTORY_HOMESERVER"

  /** `"$KEY_SELECTED_SPACE@$sessionId"`: the session id is what follows the prefix and `@`. */
  function SelectedSpaceKey(sessionId: string): (k: string)
    ensures HasPrefix(k, KeySelectedSpace + "@") && k[|KeySelectedSpace| + 1..] == sessionId
  {
    KeySelectedSpace + "@" + sessionId
  }

  /** `"$KEY_CUSTOM_DIRECTORY_HOMESERVER@$sessionId"`, read back the same way. */
  function HomeserversKey(sessionId: string): (k: string)
    ensures HasPrefix(k, KeyCustomDirectoryHomeserver + "@") && k[|KeyCustomDirectoryHomeserver| + 1..] == sessionId
  {
    KeyCustomDirectoryHomeserver + "@" + sessionId
  }

  predicate HasPrefix(k: string, prefix: string) { |prefix| <= |k| && k[..|prefix|] == prefix }

  /** The three key families never overlap, and a session's key names the session. */
  lemma {:induction false} KeysDistinct(a: string, b: string)
    ensures SelectedSpaceKey(a) == SelectedSpaceKey(b) <==> a == b
    ensures HomeserversKey(a) == HomeserversKey(b) <==> a == b
    ensures SelectedSpaceKey(a) != HomeserversKey(b)
    ensures SelectedSpaceKey(a) != KeyDisplayMode && HomeserversKey(a) != KeyDisplayMode
  {
    var n := |KeySelectedSpace + "@"|;
    if SelectedSpaceKey(a) == SelectedSpaceKey(b) {
      assert a == SelectedSpaceKey(a)[n..];
      assert b == SelectedSpaceKey(b)[n..];
    }
    var m := |KeyCustomDirectoryHomeserver + "@"|;
    if HomeserversKey(a) == HomeserversKey(b) {
      assert a == HomeserversKey(a)[m..];
      assert b == HomeserversKey(b)[m..];
    }
    assert SelectedSpaceKey(a)[0] == 'U' && HomeserversKey(b)[0] == 'K';
    assert SelectedSpaceKey(a)[9] == 'S' && KeyDisplayMode[9] == 'D';
    assert HomeserversKey(a)[0] != KeyDisplayMode[0];
  }

  /** `storeDisplayMode`'s encoding. */
  function EncodeDisplayMode(mode: DisplayMode): (code: int)
    ensures mode == People <==> code == ValueDisplayModePeople
    ensures mode == Rooms <==> code == ValueDisplayModeRooms
    ensures mode == All <==> code == ValueDisplayModeAll
    ensures mode !in {People, Rooms, All} <==> code == ValueDisplayModeCatchup
  {
    match mode
    case People => ValueDisplayModePeople
    case Rooms => ValueDisplayModeRooms
    case All => ValueDisplayModeAll
    case _ => ValueDisplayModeCatchup
  }

  /** The first `when` of `getDisplayMode`. */
  function DecodeDisplayMode(code: int, labAddNotificationTab: bool): (mode: DisplayMode)
    ensures mode != Filtered
    ensures code !in {ValueDisplayModePeople, ValueDisplayModeRooms, ValueDisplayModeAll} ==>
      mode == (if labAddNotificationTab then Notifications else People)
  {
    if code == ValueDisplayModePeople then People
    else if code == ValueDisplayModeRooms then Rooms
    else if code == ValueDisplayModeAll then All
    else if labAddNotificationTab then Notifications
    else People
  }

  /** The `combinedOverview` normalisation at the end of `getDisplayMode`. */
  function Normalize(mode: DisplayMode, combinedOverview: bool): (r: DisplayMode)
    ensures combinedOverview ==> r != People && r != Rooms
    ensures !combinedOverview ==> r != All
    ensures combinedOverview && mode in {People, Rooms} ==> r == All
    ensures !combinedOverview && mode == All ==> r == People
    ensures mode !in {People, Rooms, All} ==> r == mode
  {
    if combinedOverview then (if mode == People || mode == Rooms then All else mode)
    else (if mode == All then People else mode)
  }

  /** The three typed reads, each on a map that may lack the key. */
  function DisplayModeOf(prefs: Prefs, labAddNotificationTab: bool, combinedOverview: bool): DisplayMode
  {
    var code := if KeyDisplayMode in prefs && prefs[KeyDisplayMode].IntPref? then prefs[KeyDisplayMode].i else ValueDisplayModeCatchup;
    Normalize(DecodeDisplayMode(code, labAddNotificationTab), combinedOverview)
  }

  function SelectedSpaceOf(prefs: Prefs, sessionId: string): Option<string>
  {
    var key := SelectedSpaceKey(sessionId);
    if key in prefs && prefs[key].StringPref? then Some(prefs[key].s) else None
  }

  function HomeserversOf(prefs: Prefs, sessionId: string): set<string>
  {
    var key := HomeserversKey(sessionId);
    if key in prefs && prefs[key].StringSetPref? then prefs[key].ss else {}
  }

  /** The edits the four writers make. `putString(key, null)` removes the key. */
  function WithDisplayMode(prefs: Prefs, mode: DisplayMode): Prefs
  {
    prefs[KeyDisplayMode := IntPref(EncodeDisplayMode(mode))]
  }

  function WithSelectedSpace(prefs: Prefs, spaceId: Option<string>, sessionId: string): Prefs
  {
    match spaceId
    case Some(id) => prefs[SelectedSpaceKey(sessionId) := StringPref(id)]
    case None => prefs - {SelectedSpaceKey(sessionId)}
  }

  function WithHomeservers(prefs: Prefs, sessionId: string, servers: set<string>): Prefs
  {
    prefs[HomeserversKey(sessionId) := StringSetPref(servers)]
  }

  function WithoutDisplayMode(prefs: Prefs): Prefs
  {
    prefs - {KeyDisplayMode}
  }

  /** Storing a mode and reading it back yields the mode, normalised for `combinedOverview`;
      a mode without a code of its own reads back as the default. */
  lemma DisplayModeRoundTrip(prefs: Prefs, mode: DisplayMode, labAddNotificationTab: bool, combinedOverview: bool)
    ensures mode in {People, Rooms, All} ==>
      DisplayModeOf(WithDisplayMode(prefs, mode), labAddNotificationTab, combinedOverview) == Normalize(mode, combinedOverview)
    ensures mode !in {People, Rooms, All} ==>
      DisplayModeOf(WithDisplayMode(prefs, mode), labAddNotificationTab, combinedOverview)
        == Normalize(if labAddNotificationTab then Notifications else People, combinedOverview)
  {
  }

  /** An absent key reads as code 0. */
  lemma DisplayModeDefault(prefs: Prefs, labAddNotificationTab: bool, combinedOverview: bool)
    requires KeyDisplayMode !in prefs
    ensures DisplayModeOf(prefs, labAddNotificationTab, combinedOverview)
      == Normalize(if labAddNotificationTab then Notifications else People, combinedOverview)
  {
  }

  /** Reading a session's selected space gives the last value stored for it; storing for
      another session, or storing a display mode or homeservers, does not affect it. */
  lemma SelectedSpaceStoreGet(prefs: Prefs, spaceId: Option<string>, sessionId: string, other: string)
    ensures SelectedSpaceOf(WithSelectedSpace(prefs, spaceId, sessionId), sessionId) == spaceId
    ensures other != sessionId ==>
      SelectedSpaceOf(WithSelectedSpace(prefs, spaceId, sessionId), other) == SelectedSpaceOf(prefs, other)
    ensures SelectedSpaceOf(WithDisplayMode(prefs, DisplayMode.All), other) == SelectedSpaceOf(prefs, other)
    ensures forall servers :: SelectedSpaceOf(WithHomeservers(prefs, sessionId, servers), other) == SelectedSpaceOf(prefs, other)
  {
    KeysDistinct(sessionId, other);
    KeysDistinct(other, sessionId);
  }

  /** The homeserver set of a session is the one last stored for it, or empty. */
  lemma HomeserversStoreGet(prefs: Prefs, sessionId: string, servers: set<string>, other: string)
    ensures HomeserversOf(WithHomeservers(prefs, sessionId, servers), sessionId) == servers
    ensures other != sessionId ==>
      HomeserversOf(WithHomeservers(prefs, sessionId, servers), other) == HomeserversOf(prefs, other)
    ensures HomeserversKey(sessionId) !in prefs ==> HomeserversOf(prefs, sessionId) == {}
    ensures forall spaceId :: HomeserversOf(WithSelectedSpace(prefs, spaceId, other), sessionId) == HomeserversOf(prefs, sessionId)
  {
    KeysDistinct(sessionId, other);
    KeysDistinct(other, sessionId);
  }

  /** `reset` clears the display mode and nothing else. */
  lemma ResetTouchesOnlyDisplayMode(prefs: Prefs, sessionId: string, labAddNotificationTab: bool, combinedOverview: bool)
    ensures SelectedSpaceOf(WithoutDisplayMode(prefs), sessionId) == SelectedSpaceOf(prefs, sessionId)
    ensures HomeserversOf(WithoutDisplayMode(prefs), sessionId) == HomeserversOf(prefs, sessionId)
    ensures forall k :: k in prefs && k != KeyDisplayMode ==> k in WithoutDisplayMode(prefs) && WithoutDisplayMode(prefs)[k] == prefs[k]
    ensures DisplayModeOf(WithoutDisplayMode(prefs), labAddNotificationTab, combinedOverview)
      == Normalize(if labAddNotificationTab then Notifications else People, combinedOverview)
  {
    KeysDistinct(sessionId, sessionId);
  }

  /** The repository over one SharedPreferences file. */
  class SharedPreferencesUiStateRepository {
    var prefs: Prefs

    constructor (initial: Prefs)
      ensures prefs == initial
    {
      prefs := initial;
    }

    method Reset()
      modifies this
      ensures prefs == WithoutDisplayMode(old(prefs))
    {
      prefs := prefs - {KeyDisplayMode};
    }

    /** `getDisplayMode`; the two feature flags are read from the app preferences. */
    function GetDisplayMode(labAddNotificationTab: bool, combinedOverview: bool): (mode: DisplayMode)
      reads this
      ensures combinedOverview ==> mode != People && mode != Rooms
      ensures !combinedOverview ==> mode != All
    {
      DisplayModeOf(prefs, labAddNotificationTab, combinedOverview)
    }

    method StoreDisplayMode(displayMode: DisplayMode)
      modifies this
      ensures prefs == WithDisplayMode(old(prefs), displayMode)
    {
      prefs := prefs[KeyDisplayMode := IntPref(EncodeDisplayMode(displayMode))];
    }

    method StoreSelectedSpace(spaceId: Option<string>, sessionId: string)
      modifies this
      ensures prefs == WithSelectedSpace(old(prefs), spaceId, sessionId)
      ensures GetSelectedSpace(sessionId) == spaceId
    {
      var key := SelectedSpaceKey(sessionId);
      if spaceId.Some? {
        prefs := prefs[key := StringPref(spaceId.value)];
      } else {
        prefs := prefs - {key};
      }
      SelectedSpaceStoreGet(old(prefs), spaceId, sessionId, sessionId);
    }

    function GetSelectedSpace(sessionId: string): (r: Option<string>)
      reads this
      ensures r == SelectedSpaceOf(prefs, sessionId)
      ensures r.Some? <==> SelectedSpaceKey(sessionId) in prefs && prefs[SelectedSpaceKey(sessionId)].StringPref?
      ensures r.Some? ==> prefs[SelectedSpaceKey(sessionId)] == StringPref(r.value)
    {
      SelectedSpaceOf(prefs, sessionId)
    }

    method SetCustomRoomDirectoryHomeservers(sessionId: string, servers: set<string>)
      modifies this
      ensures prefs == WithHomeservers(old(prefs), sessionId, servers)
      ensures GetCustomRoomDirectoryHomeservers(sessionId) == servers
    {
      prefs := prefs[HomeserversKey(sessionId) := StringSetPref(servers)];
    }

    function GetCustomRoomDirectoryHomeservers(sessionId: string): (r: set<string>)
      reads this
      ensures r == HomeserversOf(prefs, sessionId)
      ensures r != {} ==> HomeserversKey(sessionId) in prefs && prefs[HomeserversKey(sessionId)] == StringSetPref(r)
      ensures HomeserversKey(sessionId) !in prefs ==> r == {}
    {
      HomeserversOf(prefs, sessionId)
    }
  }
}
