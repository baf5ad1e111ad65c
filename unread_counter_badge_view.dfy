/**
 * `UnreadCounterBadgeView` from features/home/room/list: the unread badge of a
 * room-list entry, whose visibility, background and text `render` sets.
 */
module UnreadCounterBadgeView {
  import opened Wrappers

  datatype Visibility = Visible | Invisible

  /** The three badge drawables. */
  datatype Background = BgUnreadHighlight | BgUnreadNotification | BgUnreadUnimportant

  /** `UnreadCounterBadgeView.State`. */
  datatype State =
    | Count(count: int, highlighted: bool, unread: int, markedUnread: bool)
    | Text(text: string, highlighted: bool)

  /** The view's fields that rendering sets; `background` is `None` before any is set. */
  datatype BadgeView = BadgeView(visibility: Visibility, background: Option<Background>, text: string)

  /** The inputs `renderAsCount` reads besides the state: the unimportant-badge preference
      and `RoomSummaryFormatter.formatUnreadMessagesCounter`. */
  datatype Environment = Environment(shouldShowUnimportantCounterBadge: bool, formatUnreadMessagesCounter: int -> string)

  /** Whether a Count badge is hidden. */
  predicate CountHidden(env: Environment, count: int, unread: int, markedUnread: bool)
  {
    count == 0 && !markedUnread && (unread == 0 || !env.shouldShowUnimportantCounterBadge)
  }

  /** `renderAsCount`. */
  function RenderAsCount(env: Environment, view: BadgeView, count: int, highlighted: bool, unread: int, markedUnread: bool): (r: BadgeView)
    ensures r.visibility == Invisible <==> CountHidden(env, count, unread, markedUnread)
    ensures r.visibility == Invisible ==> r.background == view.background && r.text == view.text
    ensures r.visibility == Visible ==>
      && r.background == Some(
           if (count > 0 || markedUnread) && highlighted then BgUnreadHighlight
           else if count > 0 || markedUnread then BgUnreadNotification
           else BgUnreadUnimportant)
      && (count == 0 && markedUnread ==> r.text == "!")
      && (!(count == 0 && markedUnread) ==> r.text == env.formatUnreadMessagesCounter(if count > 0 then count else unread))
  {
    if CountHidden(env, count, unread, markedUnread) then
      view.(visibility := Invisible)
    else
      var bgRes := if count > 0 || markedUnread then (if highlighted then BgUnreadHighlight else BgUnreadNotification)
                   else BgUnreadUnimportant;
      var text := if count == 0 && markedUnread then "!"
                  else env.formatUnreadMessagesCounter(if count > 0 then count else unread);
      BadgeView(Visible, Some(bgRes), text)
  }

  /** `renderAsText`. */
  function RenderAsText(text: string, highlighted: bool): (r: BadgeView)
    ensures r.visibility == Visible && r.text == text
    ensures r.background == Some(BgUnreadHighlight) <==> highlighted
    ensures !highlighted ==> r.background == Some(BgUnreadNotification)
  {
    BadgeView(Visible, Some(if highlighted then BgUnreadHighlight else BgUnreadNotification), text)
  }

  /** `render`. */
  function RenderBadge(env: Environment, view: BadgeView, state: State): (r: BadgeView)
    ensures state.Text? ==> r == RenderAsText(state.text, state.highlighted)
    ensures state.Count? ==> r == RenderAsCount(env, view, state.count, state.highlighted, state.unread, state.markedUnread)
    ensures state.Text? ==> r.visibility == Visible
  {
    match state
    case Count(count, highlighted, unread, markedUnread) => RenderAsCount(env, view, count, highlighted, unread, markedUnread)
    case Text(text, highlighted) => RenderAsText(text, highlighted)
  }

  /** A visible Count badge uses the unimportant background exactly when it shows only
      unimportant unread messages. */
  lemma UnimportantBadgeMeansNoNotification(env: Environment, view: BadgeView, count: int, highlighted: bool, unread: int, markedUnread: bool)
    requires RenderAsCount(env, view, count, highlighted, unread, markedUnread).visibility == Visible
    ensures RenderAsCount(env, view, count, highlighted, unread, markedUnread).background == Some(BgUnreadUnimportant)
      <==> count <= 0 && !markedUnread
    ensures count == 0 && !markedUnread ==> unread != 0 && env.shouldShowUnimportantCounterBadge
  {
  }

  /** Rendering depends only on the state (and the previous view for a hidden badge). */
  lemma RenderIdempotent(env: Environment, view: BadgeView, state: State)
    ensures RenderBadge(env, RenderBadge(env, view, state), state) == RenderBadge(env, view, state)
  {
  }

  /** The badge view: `render` sets its fields. */
  class Badge {
    var visibility: Visibility
    var background: Option<Background>
    var text: string

    function View(): BadgeView
      reads this
    {
      BadgeView(visibility, background, text)
    }

    constructor ()
      ensures View() == BadgeView(Visible, None, "")
    {
      visibility := Visible;
      background := None;
      text := "";
    }

    method Render(env: Environment, state: State)
      modifies this
      ensures View() == RenderBadge(env, old(View()), state)
    {
      match state {
        case Count(count, highlighted, unread, markedUnread) =>
          RenderAsCountInPlace(env, count, highlighted, unread, markedUnread);
        case Text(t, highlighted) =>
          visibility := Visible;
          background := Some(if highlighted then BgUnreadHighlight else BgUnreadNotification);
          text := t;
      }
    }

    method RenderAsCountInPlace(env: Environment, count: int, highlighted: bool, unread: int, markedUnread: bool)
      modifies this
      ensures View() == RenderAsCount(env, old(View()), count, highlighted, unread, markedUnread)
    {
      if count == 0 && !markedUnread && (unread == 0 || !env.shouldShowUnimportantCounterBadge) {
        visibility := Invisible;
      } else {
        visibility := Visible;
        var bgRes := if count > 0 || markedUnread then (if highlighted then BgUnreadHighlight else BgUnreadNotification)
                     else BgUnreadUnimportant;
        background := Some(bgRes);
        text := if count == 0 && markedUnread then "!" else env.formatUnreadMessagesCounter(if count > 0 then count else unread);
      }
    }
  }
}
