# SchildiChat Android: verified model of the app-side decision logic

This project models, in Dafny, the self-contained logic inside the SchildiChat
(Element Android fork) app layer, and proves what that logic promises:

- **Space selection** (`SpaceStateHandlerImpl`): the current selected space and why it
  was selected (`INIT`, `SWIPE`, `PERSIST_SWIPE`, `SELECT`), the same-space guard, the
  persisted space backstack (push on forward selection, clear on "all chats", pop),
  the per-session persistence of the selection, and the promotion of a swiped
  selection to `PERSIST_SWIPE`.
- **Emoji splitting** (`splitEmoji`): UTF-16 surrogate pairing and removal of U+200E.
- **Notification triage** (`NotifiableEventProcessor.process`).
- **UI-state preferences** (`SharedPreferencesUiStateRepository`): the display-mode
  code, its normalisation, and per-session keys in SharedPreferences (a map).
- **View types** (`BaseEventItem`): the Szudzik pairing and its 32-bit truncation.
- **Emoji autocompletion models** (`AutocompleteEmojiController.buildModels`).
- **Message text trimming** (`toMessageTextEpoxyCharSequence`).
- **Unread badge** (`UnreadCounterBadgeView.render`).
- **Image/video footer placement** (`MessageImageVideoItem`).
- **Bubble layout defaults** (`TimelineMessageLayout`).
- **Visibility callbacks** (`TimelineVisibilityStateChangedListeners`).

One module per source file. The modules with state in place have a class whose
methods are proved equal to a pure step function; the lemmas are about those
functions. Collaborators whose code is not part of this model are inputs:

- the active session;
- the room-summary lookup (a session resolves the ids in its `roomIds`);
- the feature flags;
- the counter formatter;
- `shouldIgnoreMessageEventInRoom`, `isMessageOutdated`, `updateReceivedStatus`;
- `infoInBubbles`;
- Android resource ids.

Two behaviours of the code are stated as lemmas:

- `BaseEventItem.ViewTypeCollision`: two distinct (layout, stub) pairs can get the same
  32-bit view type, because the pairing value is truncated to an `Int`.
- `MessageImageVideoItem.OverlayOverflowExample`: the `Int` area products of
  `shouldAllowFooterOverlay` can wrap around.

## Model

| member | source | states |
|---|---|---|
| `SpaceState.Initial` | vector/src/main/java/im/vector/app/SpaceStateHandlerImpl.kt:72 | the data source starts empty and its current value is the last posted value |
| `SpaceState.GetRoomSummary` | vector/src/main/java/im/vector/app/SpaceStateHandlerImpl.kt:94 | a summary is found exactly for ids the session knows, and carries that id |
| `SpaceState.RoomIdOf` | vector/src/main/java/im/vector/app/SpaceStateHandlerImpl.kt:95 | `summary?.roomId` is null exactly when there is no summary |
| `SpaceState.SpaceToSet` | vector/src/main/java/im/vector/app/SpaceStateHandlerImpl.kt:94 | the space to set is non-null only for a requested id the session resolves, and then has that id |
| `SpaceState.AddToBackstack` | vector/src/main/java/im/vector/app/SpaceStateHandlerImpl.kt:137-146 | a non-null new space appends exactly the left space's id (possibly null); "all chats" empties the backstack |
| `SpaceState.Post` | vector/src/main/java/im/vector/app/SpaceStateHandlerImpl.kt:123-125 | posting sets the current value, appends it to the stream and changes nothing else |
| `SpaceState.SetCurrentSpaceStep` | vector/src/main/java/im/vector/app/SpaceStateHandlerImpl.kt:84-135 | no session or same space: nothing changes; otherwise one analytics event, the backstack only on forward SELECT/INIT, with persistNow the store is the old one with the new id written under the session's key (else unchanged), the current value is (resolved space, origin) |
| `SpaceState.PopStep` | vector/src/main/java/im/vector/app/SpaceStateHandlerImpl.kt:173-179 | a non-empty backstack yields its last element and loses it; an empty one fails and is unchanged |
| `SpaceState.SafeActiveSpaceId` | vector/src/main/java/im/vector/app/SpaceStateHandlerImpl.kt:187-189 | the current space's id, or null without a selection |
| `SpaceState.CurrentSpace` | vector/src/main/java/im/vector/app/SpaceStateHandlerImpl.kt:78-82 | a space is returned exactly when a space is selected, there is an active session and it resolves that id; the result carries the selected id |
| `SpaceState.PersistSelectedSpaceStep` | vector/src/main/java/im/vector/app/SpaceStateHandlerImpl.kt:201-213 | no-op without selection or session; SWIPE becomes PERSIST_SWIPE with the same space, other origins unchanged, backstack unchanged; the store is the old one with the current id written under the session's key |
| `SpaceState.OnPauseStep` | vector/src/main/java/im/vector/app/SpaceStateHandlerImpl.kt:195-199 | with a session the store becomes the old store with the current id written under that session's key; all other state and keys unchanged |
| `SpaceState.SpaceFlow` | vector/src/main/java/im/vector/app/SpaceStateHandlerImpl.kt:74 | the flow carries the space of every posted value, in order |
| `SpaceState.IgnoreSwipe` | vector/src/main/java/im/vector/app/SpaceStateHandlerImpl.kt:75-76 | the ignore-swipe flow is never longer than the stream it filters |
| `SpaceState.IgnoreSwipeMembers` | vector/src/main/java/im/vector/app/SpaceStateHandlerImpl.kt:75-76 | a value is in the ignore-swipe flow exactly when it was posted and its origin is not SWIPE |
| `SpaceState.IgnoreSwipeAppend` | vector/src/main/java/im/vector/app/SpaceStateHandlerImpl.kt:75-76 | the filter preserves stream order (distributes over concatenation) |
| `SpaceState.FlowReplaysCurrent` | vector/src/main/java/im/vector/app/SpaceStateHandlerImpl.kt:72-74 | the latest flow value is the current selection's space |
| `SpaceState.StepsPreserveValid` | vector/src/main/java/im/vector/app/SpaceStateHandlerImpl.kt:84-213 | every operation keeps the current value equal to the last posted value |
| `SpaceState.PushThenPop` | vector/src/main/java/im/vector/app/SpaceStateHandlerImpl.kt:137-179 | popping after a push returns the left space's id and the previous backstack |
| `SpaceState.PersistLeavesNoSwipe` | vector/src/main/java/im/vector/app/SpaceStateHandlerImpl.kt:207-209 | after persisting with a session the origin is never SWIPE |
| `SpaceState.SelectSelectPopScenario` | vector/src/main/java/im/vector/app/SpaceStateHandlerImpl.kt:113-179 | selecting space1 then space2 from "all chats" gives backstack [null, space1]; pop returns space1 leaving [null] |
| `SpaceState.SpaceStateHandlerImpl.constructor` | vector/src/main/java/im/vector/app/SpaceStateHandlerImpl.kt:59-72 | the handler starts with no selection, one posted empty value, the persisted backstack and no analytics, over the given repository |
| `SpaceState.SpaceStateHandlerImpl.PostValue` | vector/src/main/java/im/vector/app/SpaceStateHandlerImpl.kt:123-125 | the fields change as `Post` says |
| `SpaceState.SpaceStateHandlerImpl.SetCurrentSpace` | vector/src/main/java/im/vector/app/SpaceStateHandlerImpl.kt:84-135 | the handler and repository change exactly as `SetCurrentSpaceStep` says |
| `SpaceState.SpaceStateHandlerImpl.ApplySelection` | vector/src/main/java/im/vector/app/SpaceStateHandlerImpl.kt:105-126 | the fields and the repository change as that step says, given the session, the space left and the space to set |
| `SpaceState.SpaceStateHandlerImpl.AddToBackstackInPlace` | vector/src/main/java/im/vector/app/SpaceStateHandlerImpl.kt:137-146 | the backstack becomes `AddToBackstack` of the old one; nothing else changes |
| `SpaceState.SpaceStateHandlerImpl.PopSpaceBackstack` | vector/src/main/java/im/vector/app/SpaceStateHandlerImpl.kt:173-179 | outcome and new backstack are `PopStep` of the old backstack |
| `SpaceState.SpaceStateHandlerImpl.GetSpaceBackstack` | vector/src/main/java/im/vector/app/SpaceStateHandlerImpl.kt:181 | the persisted backstack, whose last element is what a pop returns |
| `SpaceState.SpaceStateHandlerImpl.GetSafeActiveSpaceId` | vector/src/main/java/im/vector/app/SpaceStateHandlerImpl.kt:187-189 | agrees with `SafeActiveSpaceId` of the handler's state |
| `SpaceState.SpaceStateHandlerImpl.OnPause` | vector/src/main/java/im/vector/app/SpaceStateHandlerImpl.kt:195-199 | the state changes as `OnPauseStep` says |
| `SpaceState.SpaceStateHandlerImpl.PersistSelectedSpace` | vector/src/main/java/im/vector/app/SpaceStateHandlerImpl.kt:201-213 | the state changes as `PersistSelectedSpaceStep` says |
| `Emoji.Split` | vector/src/main/java/im/vector/app/core/utils/Emoji.kt:39-70 | the reference definition of the loop; never more pieces than units |
| `Emoji.SplitEmoji` | vector/src/main/java/im/vector/app/core/utils/Emoji.kt:39-70 | the loop computes `Split`; joined pieces are the input without U+200E; every piece is a non-mark unit or a surrogate pair; no more pieces than units |
| `Emoji.SplitRoundTrip` | vector/src/main/java/im/vector/app/core/utils/Emoji.kt:39-70 | concatenating the pieces gives the input with every U+200E removed |
| `Emoji.SplitPieces` | vector/src/main/java/im/vector/app/core/utils/Emoji.kt:47-63 | every piece has one or two units, contains no U+200E, pairs only high+low; at most one piece per unit |
| `Emoji.SplitAt` | vector/src/main/java/im/vector/app/core/utils/Emoji.kt:44-67 | inside any range, every position is a piece boundary except one between a high surrogate and the low surrogate after it |
| `Emoji.SplitAppend` | vector/src/main/java/im/vector/app/core/utils/Emoji.kt:44-67 | a cut after a unit that is not a high surrogate is a piece boundary |
| `Emoji.SplitCutBefore` | vector/src/main/java/im/vector/app/core/utils/Emoji.kt:49-60 | the cut before a high surrogate is a piece boundary whatever the prefix ends in |
| `Emoji.SplitSurrogatePair` | vector/src/main/java/im/vector/app/core/utils/Emoji.kt:49-56 | a high surrogate followed by a low one becomes one two-unit piece, whatever precedes it |
| `Emoji.SplitLoneHighSurrogate` | vector/src/main/java/im/vector/app/core/utils/Emoji.kt:49-60 | a high surrogate that is last or not followed by a low one is a one-unit piece, and the next unit is split on its own, whatever precedes it |
| `Emoji.MarkSeparatesSurrogates` | vector/src/main/java/im/vector/app/core/utils/Emoji.kt:47-60 | a mark between the halves of a pair keeps them as two pieces |
| `NotifiableEventProcessor.Classify` | vector/src/main/java/im/vector/app/features/notifications/NotifiableEventProcessor.kt:26-46 | invite REMOVE iff hideInvites; message REMOVE iff ignored or outdated; Jitsi KEEP iff not received; simple REMOVE iff redaction |
| `NotifiableEventProcessor.Refresh` | vector/src/main/java/im/vector/app/features/notifications/NotifiableEventProcessor.kt:48 | only Jitsi events are replaced by their updated status |
| `NotifiableEventProcessor.ProcessQueued` | vector/src/main/java/im/vector/app/features/notifications/NotifiableEventProcessor.kt:25-50 | one processed entry per queued event, in queue order, with its classification |
| `NotifiableEventProcessor.Unqueued` | vector/src/main/java/im/vector/app/features/notifications/NotifiableEventProcessor.kt:52-54 | a rendered entry is in the diff exactly when no queued event has its id |
| `NotifiableEventProcessor.RemoveAll` | vector/src/main/java/im/vector/app/features/notifications/NotifiableEventProcessor.kt:54-57 | every diff entry is REMOVE of the (refreshed) rendered event, in order |
| `NotifiableEventProcessor.Process` | vector/src/main/java/im/vector/app/features/notifications/NotifiableEventProcessor.kt:24-60 | the result is the removal diff followed by one classified entry per queued event |
| `NotifiableEventProcessor.UnqueuedAppend` | vector/src/main/java/im/vector/app/features/notifications/NotifiableEventProcessor.kt:52-54 | the diff keeps rendered order and multiplicity |
| `NotifiableEventProcessor.UnqueuedSingle` | vector/src/main/java/im/vector/app/features/notifications/NotifiableEventProcessor.kt:52-54 | one rendered entry is in the diff iff its id is not queued |
| `NotifiableEventProcessor.NothingQueuedKeepsAll` | vector/src/main/java/im/vector/app/features/notifications/NotifiableEventProcessor.kt:52-54 | with an empty queue the diff is every rendered entry, in order |
| `NotifiableEventProcessor.NothingQueuedRemovesAll` | vector/src/main/java/im/vector/app/features/notifications/NotifiableEventProcessor.kt:52-59 | with an empty queue the result is a REMOVE of every rendered event, in order |
| `NotifiableEventProcessor.StillQueuedNotInDiff` | vector/src/main/java/im/vector/app/features/notifications/NotifiableEventProcessor.kt:52-54 | rendered events that are still queued yield no removal |
| `UiStateRepository.SelectedSpaceKey` | vector/src/main/java/im/vector/app/features/ui/SharedPreferencesUiStateRepository.kt:69-74 | the key `"$KEY_SELECTED_SPACE@$sessionId"`: it starts with the constant and `@`, and the rest is the session id |
| `UiStateRepository.HomeserversKey` | vector/src/main/java/im/vector/app/features/ui/SharedPreferencesUiStateRepository.kt:79-85 | the key `"$KEY_CUSTOM_DIRECTORY_HOMESERVER@$sessionId"`: it starts with the constant and `@`, and the rest is the session id |
| `UiStateRepository.KeysDistinct` | vector/src/main/java/im/vector/app/features/ui/SharedPreferencesUiStateRepository.kt:67-98 | per-session keys are injective in the session id and never clash with each other or the display-mode key |
| `UiStateRepository.EncodeDisplayMode` | vector/src/main/java/im/vector/app/features/ui/SharedPreferencesUiStateRepository.kt:53-64 | PEOPLE→1, ROOMS→2, ALL→42, every other mode→0 |
| `UiStateRepository.DecodeDisplayMode` | vector/src/main/java/im/vector/app/features/ui/SharedPreferencesUiStateRepository.kt:31-40 | unknown codes decode to NOTIFICATIONS with the lab flag, PEOPLE without |
| `UiStateRepository.Normalize` | vector/src/main/java/im/vector/app/features/ui/SharedPreferencesUiStateRepository.kt:41-50 | with combinedOverview PEOPLE and ROOMS become ALL and it is never PEOPLE/ROOMS; without it ALL becomes PEOPLE and it is never ALL; other modes unchanged |
| `UiStateRepository.DisplayModeRoundTrip` | vector/src/main/java/im/vector/app/features/ui/SharedPreferencesUiStateRepository.kt:30-64 | storing PEOPLE/ROOMS/ALL reads back the same mode up to normalisation; other modes read back as the default |
| `UiStateRepository.DisplayModeDefault` | vector/src/main/java/im/vector/app/features/ui/SharedPreferencesUiStateRepository.kt:31 | an absent key reads as code 0 |
| `UiStateRepository.SelectedSpaceStoreGet` | vector/src/main/java/im/vector/app/features/ui/SharedPreferencesUiStateRepository.kt:67-75 | a session reads back its last stored space (null removes); other sessions and other writes do not affect it |
| `UiStateRepository.HomeserversStoreGet` | vector/src/main/java/im/vector/app/features/ui/SharedPreferencesUiStateRepository.kt:77-87 | a session reads back its stored homeserver set, or the empty set; other sessions unaffected |
| `UiStateRepository.ResetTouchesOnlyDisplayMode` | vector/src/main/java/im/vector/app/features/ui/SharedPreferencesUiStateRepository.kt:24-28 | reset removes only the display-mode key; spaces and homeservers unchanged |
| `UiStateRepository.SharedPreferencesUiStateRepository.constructor` | vector/src/main/java/im/vector/app/features/ui/SharedPreferencesUiStateRepository.kt:19-22 | the repository wraps the given preferences |
| `UiStateRepository.SharedPreferencesUiStateRepository.Reset` | vector/src/main/java/im/vector/app/features/ui/SharedPreferencesUiStateRepository.kt:24-28 | the map loses the display-mode key |
| `UiStateRepository.SharedPreferencesUiStateRepository.GetDisplayMode` | vector/src/main/java/im/vector/app/features/ui/SharedPreferencesUiStateRepository.kt:30-51 | the mode read respects the combinedOverview normalisation |
| `UiStateRepository.SharedPreferencesUiStateRepository.StoreDisplayMode` | vector/src/main/java/im/vector/app/features/ui/SharedPreferencesUiStateRepository.kt:53-65 | the display-mode key holds the mode's code |
| `UiStateRepository.SharedPreferencesUiStateRepository.StoreSelectedSpace` | vector/src/main/java/im/vector/app/features/ui/SharedPreferencesUiStateRepository.kt:67-71 | the session's key holds the id (removed for null) and reads back as it |
| `UiStateRepository.SharedPreferencesUiStateRepository.GetSelectedSpace` | vector/src/main/java/im/vector/app/features/ui/SharedPreferencesUiStateRepository.kt:73-75 | the string stored under the session's key, or null exactly when no string is stored there |
| `UiStateRepository.SharedPreferencesUiStateRepository.SetCustomRoomDirectoryHomeservers` | vector/src/main/java/im/vector/app/features/ui/SharedPreferencesUiStateRepository.kt:77-81 | the session's key holds the set and reads back as it |
| `UiStateRepository.SharedPreferencesUiStateRepository.GetCustomRoomDirectoryHomeservers` | vector/src/main/java/im/vector/app/features/ui/SharedPreferencesUiStateRepository.kt:83-87 | the set stored under the session's key; the empty set when the key is absent |
| `BaseEventItem.Pairing` | vector/src/main/java/im/vector/app/features/home/room/detail/timeline/item/BaseEventItem.kt:46-48 | the Szudzik pairing on unbounded integers; on non-negative arguments the pairs whose larger component is m fill the shell [m², (m+1)²); injectivity, bounds and the Long fit are the Pairing* lemmas |
| `BaseEventItem.ToInt` | vector/src/main/java/im/vector/app/features/home/room/detail/timeline/item/BaseEventItem.kt:41 | `toInt()` yields an Int congruent to its input modulo 2^32, the input itself when it fits |
| `BaseEventItem.ViewType` | vector/src/main/java/im/vector/app/features/home/room/detail/timeline/item/BaseEventItem.kt:38-42 | an Int congruent to pairing − Int.MAX_VALUE modulo 2^32 |
| `BaseEventItem.PairingInjective` | vector/src/main/java/im/vector/app/features/home/room/detail/timeline/item/BaseEventItem.kt:39-49 | distinct non-negative pairs have distinct pairing values |
| `BaseEventItem.PairingAtLeastMax` | vector/src/main/java/im/vector/app/features/home/room/detail/timeline/item/BaseEventItem.kt:47-49 | the pairing is at least each non-negative argument |
| `BaseEventItem.PairingBoundNonNegative` | vector/src/main/java/im/vector/app/features/home/room/detail/timeline/item/BaseEventItem.kt:40-49 | for arguments in [0, 2^31−1] the pairing is in [0, 2^62−1] |
| `BaseEventItem.PairingFitsLong` | vector/src/main/java/im/vector/app/features/home/room/detail/timeline/item/BaseEventItem.kt:40-49 | for any Int arguments the Long arithmetic never overflows |
| `BaseEventItem.ViewTypeEqualIff` | vector/src/main/java/im/vector/app/features/home/room/detail/timeline/item/BaseEventItem.kt:38-42 | two view types are equal exactly when the pairing values agree modulo 2^32 |
| `BaseEventItem.ViewTypeCollision` | vector/src/main/java/im/vector/app/features/home/room/detail/timeline/item/BaseEventItem.kt:39-41 | (0, 0) and (0, 65536) have distinct pairings but one view type |
| `AutocompleteEmojiController.ModelFor` | vector/src/main/java/im/vector/app/features/autocomplete/emoji/AutocompleteEmojiController.kt:60-91 | header, emoji and expand models carry ids `h/…`, `e/…/…`, `x/…/…` |
| `AutocompleteEmojiController.ModelIdPrefix` | vector/src/main/java/im/vector/app/features/autocomplete/emoji/AutocompleteEmojiController.kt:60-91 | every item model id starts with its kind prefix and differs from `more_result` |
| `AutocompleteEmojiController.Limit` | vector/src/main/java/im/vector/app/features/autocomplete/emoji/AutocompleteEmojiController.kt:42 | the listener's override if present, else MAX (50) |
| `AutocompleteEmojiController.BuildModels` | vector/src/main/java/im/vector/app/features/autocomplete/emoji/AutocompleteEmojiController.kt:38-58 | null/empty data: no models; a negative limit fails as `take` does; otherwise the first min(size, max) items in order, then one `more_result` exactly when size > max |
| `MessageText.ToEpoxyCharSequence` | library/core-utils/src/main/java/im/vector/lib/core/utils/epoxy/charsequence/Extensions.kt:15 | the wrapper holds the text unchanged |
| `MessageText.ToMessageTextEpoxyCharSequence` | library/core-utils/src/main/java/im/vector/lib/core/utils/epoxy/charsequence/Extensions.kt:17-29 | empty stays empty; otherwise ends in U+202F, length = |s| − [ends in newline] + 1, the rest is a prefix of s, and at most one newline goes |
| `MessageText.OneNewlineRemoved` | library/core-utils/src/main/java/im/vector/lib/core/utils/epoxy/charsequence/Extensions.kt:21-26 | "a\n\n" becomes "a\n" followed by U+202F |
| `UnreadCounterBadgeView.RenderAsCount` | vector/src/main/java/im/vector/app/features/home/room/list/UnreadCounterBadgeView.kt:34-58 | hidden exactly when count 0, not marked, and no shown unimportant count; background and text per the decision table; a hidden badge keeps its old text and background |
| `UnreadCounterBadgeView.RenderAsText` | vector/src/main/java/im/vector/app/features/home/room/list/UnreadCounterBadgeView.kt:60-69 | always visible, text verbatim, highlight background exactly when highlighted |
| `UnreadCounterBadgeView.RenderBadge` | vector/src/main/java/im/vector/app/features/home/room/list/UnreadCounterBadgeView.kt:27-32 | a Count state renders as `RenderAsCount`, a Text state as `RenderAsText` and is then visible |
| `UnreadCounterBadgeView.UnimportantBadgeMeansNoNotification` | vector/src/main/java/im/vector/app/features/home/room/list/UnreadCounterBadgeView.kt:38-50 | a visible count badge is unimportant exactly when count ≤ 0 and not marked unread |
| `UnreadCounterBadgeView.RenderIdempotent` | vector/src/main/java/im/vector/app/features/home/room/list/UnreadCounterBadgeView.kt:27-69 | rendering the same state twice equals rendering it once |
| `UnreadCounterBadgeView.Badge.constructor` | vector/src/main/java/im/vector/app/features/home/room/list/UnreadCounterBadgeView.kt:19 | a new badge is visible with no background and empty text |
| `UnreadCounterBadgeView.Badge.Render` | vector/src/main/java/im/vector/app/features/home/room/list/UnreadCounterBadgeView.kt:27-32 | the fields become `RenderBadge` of the old view |
| `UnreadCounterBadgeView.Badge.RenderAsCountInPlace` | vector/src/main/java/im/vector/app/features/home/room/list/UnreadCounterBadgeView.kt:34-58 | the fields become `RenderAsCount` of the old view |
| `MessageImageVideoItem.Wrap` | vector/src/main/java/im/vector/app/features/home/room/detail/timeline/item/MessageImageVideoItem.kt:159 | Int arithmetic results lie in the Int range and equal the exact value when it fits |
| `MessageImageVideoItem.HasCaption` | vector/src/main/java/im/vector/app/features/home/room/detail/timeline/item/MessageImageVideoItem.kt:136 | true exactly when the caption is neither null nor made only of whitespace; a caption is then non-empty |
| `MessageImageVideoItem.NeedsRealBubble` | vector/src/main/java/im/vector/app/features/home/room/detail/timeline/item/MessageImageVideoItem.kt:138 | always for a reply; otherwise exactly when there is a caption |
| `MessageImageVideoItem.ShouldAllowFooterOverlay` | vector/src/main/java/im/vector/app/features/home/room/detail/timeline/item/MessageImageVideoItem.kt:151-160 | caption: true; else 2w > 3fw, 2h > 3fh and the wrapped area w·h exceeds the wrapped 4·fw·fh |
| `MessageImageVideoItem.WrapProduct` | vector/src/main/java/im/vector/app/features/home/room/detail/timeline/item/MessageImageVideoItem.kt:159 | wrapping after each multiplication of `4 * fw * fh` equals wrapping once |
| `MessageImageVideoItem.WrapShift` | vector/src/main/java/im/vector/app/features/home/room/detail/timeline/item/MessageImageVideoItem.kt:159 | wrapping ignores multiples of 2^32 |
| `MessageImageVideoItem.ShouldShowFooterBellow` | vector/src/main/java/im/vector/app/features/home/room/detail/timeline/item/MessageImageVideoItem.kt:162-172 | caption: false; else iff 2w > 3fw and 2h < 3fh |
| `MessageImageVideoItem.OverlayAndBelowExclusive` | vector/src/main/java/im/vector/app/features/home/room/detail/timeline/item/MessageImageVideoItem.kt:159-171 | without a caption the footer is never both over and below |
| `MessageImageVideoItem.OverlayExactWithoutOverflow` | vector/src/main/java/im/vector/app/features/home/room/detail/timeline/item/MessageImageVideoItem.kt:159 | without overflow, overlay is the exact area comparison |
| `MessageImageVideoItem.OverlayOverflowExample` | vector/src/main/java/im/vector/app/features/home/room/detail/timeline/item/MessageImageVideoItem.kt:159 | a 46341×46341 image wraps its area and refuses a small footer |
| `MessageImageVideoItem.Animate` | vector/src/main/java/im/vector/app/features/home/room/detail/timeline/item/MessageImageVideoItem.kt:69-87 | animate iff playable, an image or local sticker, and autoplay is on |
| `MessageImageVideoItem.EffectiveMode` | vector/src/main/java/im/vector/app/features/home/room/detail/timeline/item/MessageImageVideoItem.kt:89 | ANIMATED_THUMBNAIL replaces THUMBNAIL only when animating; other modes unchanged |
| `MessageImageVideoItem.PlayIconVisible` | vector/src/main/java/im/vector/app/features/home/room/detail/timeline/item/MessageImageVideoItem.kt:127-133 | the play icon shows iff playable and not animating |
| `MessageImageVideoItem.AnimationHidesPlayIcon` | vector/src/main/java/im/vector/app/features/home/room/detail/timeline/item/MessageImageVideoItem.kt:87-133 | an animating item hides the play icon; a non-playable item neither animates nor shows it |
| `MessageImageVideoItem.ScBubbleMargin` | vector/src/main/java/im/vector/app/features/home/room/detail/timeline/item/MessageImageVideoItem.kt:205-210 | the parent's margin with a caption or a reply, 0 otherwise |
| `MessageImageVideoItem.NeedsFooterReservation` | vector/src/main/java/im/vector/app/features/home/room/detail/timeline/item/MessageImageVideoItem.kt:212-214 | reservation iff there is a non-blank caption |
| `MessageImageVideoItem.Item.constructor` | vector/src/main/java/im/vector/app/features/home/room/detail/timeline/item/MessageImageVideoItem.kt:60-63 | the remembered fields start as true, true, null, true |
| `MessageImageVideoItem.Item.Bind` | vector/src/main/java/im/vector/app/features/home/room/detail/timeline/item/MessageImageVideoItem.kt:65-133 | bind forgets the forced overlay value and returns the animate, mode and play-icon decisions |
| `MessageImageVideoItem.Item.OnImageSizeUpdated` | vector/src/main/java/im/vector/app/features/home/room/detail/timeline/item/MessageImageVideoItem.kt:75-85 | with a bubble wrap view the overlay decision is forced to the new size's; when it or the below-decision differs from the last ones, the new below-value is taken and a relayout requested (the relayout itself, `renderMessageLayout`, is not part of this model); the method leaves the last-* fields untouched |
| `MessageImageVideoItem.Item.AllowFooterOverlay` | vector/src/main/java/im/vector/app/features/home/room/detail/timeline/item/MessageImageVideoItem.kt:174-194 | caption, then remembered value, then 0×0 image, then computed value; the answer is recorded in lastAllowedFooterOverlay |
| `MessageImageVideoItem.Item.AllowFooterBelow` | vector/src/main/java/im/vector/app/features/home/room/detail/timeline/item/MessageImageVideoItem.kt:196-203 | caption: true; else showFooterBellow, recorded in lastShowFooterBellow |
| `TimelineMessageLayout.NewDefault` | vector/src/main/java/im/vector/app/features/home/room/detail/timeline/style/TimelineMessageLayout.kt:26-33 | Default's layoutRes defaults to 0 |
| `TimelineMessageLayout.BubbleLayoutRes` | vector/src/main/java/im/vector/app/features/home/room/detail/timeline/style/TimelineMessageLayout.kt:46-50 | the incoming base layout iff incoming |
| `TimelineMessageLayout.ScBubbleLayoutRes` | vector/src/main/java/im/vector/app/features/home/room/detail/timeline/style/TimelineMessageLayout.kt:75-79 | the incoming base layout iff incoming |
| `TimelineMessageLayout.ScBubbleDrawable` | vector/src/main/java/im/vector/app/features/home/room/detail/timeline/style/TimelineMessageLayout.kt:80-95 | 0 for pseudo bubbles; with an avatar the tailed, else the no-tail drawable, outgoing iff reversed |
| `TimelineMessageLayout.NewBubble` | vector/src/main/java/im/vector/app/features/home/room/detail/timeline/style/TimelineMessageLayout.kt:35-51 | every argument is carried into its field; showTimestamp defaults to true, addTopMargin to false, layoutRes to the incoming base iff incoming and to the outgoing base iff outgoing |
| `TimelineMessageLayout.NewScBubble` | vector/src/main/java/im/vector/app/features/home/room/detail/timeline/style/TimelineMessageLayout.kt:62-96 | every argument is carried into its field; showTimestamp defaults to true; layoutRes is the sc incoming base iff incoming and the sc outgoing base iff outgoing; bubbleDrawable is ScBubbleDrawable, 0 for a pseudo bubble |
| `TimelineMessageLayout.ShowsE2eDecorationInFooter` | vector/src/main/java/im/vector/app/features/home/room/detail/timeline/style/TimelineMessageLayout.kt:97 | false except for ScBubble, where it is `infoInBubbles` |
| `TimelineVisibilityListeners.ReadMarkerOnVisibilityStateChanged` | vector/src/main/java/im/vector/app/features/home/room/detail/timeline/helper/TimelineVisibilityStateChangedListeners.kt:22-30 | one read-marker call iff a callback exists and the state is one of the four visible states |
| `TimelineVisibilityListeners.EventOnVisibilityStateChanged` | vector/src/main/java/im/vector/app/features/home/room/detail/timeline/helper/TimelineVisibilityStateChangedListeners.kt:39-45 | VISIBLE: onEventVisible; INVISIBLE: onEventInvisible; else or null callback: nothing |
| `TimelineVisibilityListeners.MergedOnVisibilityStateChanged` | vector/src/main/java/im/vector/app/features/home/room/detail/timeline/helper/TimelineVisibilityStateChangedListeners.kt:54-60 | one call per event in list order on VISIBLE/INVISIBLE; nothing otherwise or without a callback |

## Left out

- `MessageImageVideoItem.Item.OnImageSizeUpdated`: the `relayout` result stands for `bubbleWrapView.renderMessageLayout(...)`. That view code is not part of this model, so the model does not capture that the relayout calls `AllowFooterOverlay`/`AllowFooterBelow` again and updates the last-* fields.
- Coroutines and flows of `SpaceStateHandlerImpl`: `observeActiveSession`, `onResume`, the cancellation in `onPause`. These are concurrency. The flows are modelled as the history of posted values, without timing or subscription.
- The background room-member preload of `setCurrentSpace`: fire-and-forget I/O whose failures are swallowed.
- Debug logging, Timber and DbgUtil.
- The analytics sink: modelled as a recorded list of `ViewRoom` events, not as a call.
- Room-summary lookup: a session resolves exactly the ids in its `roomIds`, and a summary's `roomId` is the id it was asked for. The SDK code behind `getRoomSummary` is not part of this model.
- `UiStateRepository.SharedPreferencesUiStateRepository.GetDisplayMode`: a value of the wrong type under a repository key reads as absent. Android would throw `ClassCastException` instead. Only this repository writes those keys, and it always writes the right type.
- `MessageImageVideoItem.IsWhitespace` follows the JVM's whitespace and space-separator classes as of Unicode 15. Unicode tables are not modelled.
- `Emoji.kt` helpers `customToPseudoEmoji` (regex) and `containsOnlyEmojis` (an emoji library): only `splitEmoji` is modelled.
- The view mutations in `bind`, `unbind`, `applyScBubbleStyle`, `reserveFooterSpace` and `BaseEventItem.bind`, and the Glide/Epoxy rendering calls. Only the decisions they are given are modelled.
- `MessageText.ToMessageTextEpoxyCharSequence`: a `CharSequence` is modelled as a Dafny string. The spans that `subSequence` and `TextUtils.concat` carry over are not modelled, and lengths count Unicode scalar values, not UTF-16 units.
- `TimelineMessageLayout.Bubble.CornersRadius` and the floating-point bubble radius are not modelled.
- `AutocompleteEmojiController`: the font-provider listener, typeface, click listeners and thumbnail URL of the emoji model are not modelled.
