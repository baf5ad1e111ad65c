/**
 * `TimelineMessageLayout` from features/home/room/detail/timeline/style: the three
 * layouts of a timeline message and the defaults their constructors compute.
 * Android resource ids are inputs: aapt gives distinct non-zero ids.
 */
module TimelineMessageLayout {

  /** The `R.layout` ids of the four base layouts. */
  datatype LayoutIds = LayoutIds(
    bubbleIncomingBase: int, bubbleOutgoingBase: int,
    scBubbleIncomingBase: int, scBubbleOutgoingBase: int)

  predicate DistinctNonZero(ids: LayoutIds)
  {
    && 0 !in {ids.bubbleIncomingBase, ids.bubbleOutgoingBase, ids.scBubbleIncomingBase, ids.scBubbleOutgoingBase}
    && ids.bubbleIncomingBase != ids.bubbleOutgoingBase
    && ids.scBubbleIncomingBase != ids.scBubbleOutgoingBase
  }

  /** The drawables of a `ScBubbleAppearance` that `bubbleDrawable` picks from. */
  datatype ScBubbleAppearance = ScBubbleAppearance(
    textBubbleOutgoing: int, textBubbleIncoming: int,
    textBubbleOutgoingNoTail: int, textBubbleIncomingNoTail: int)

  datatype Layout =
    | Default(showAvatar: bool, showDisplayName: bool, showTimestamp: bool, layoutRes: int)
    | Bubble(showAvatar: bool, showDisplayName: bool, showTimestamp: bool, addTopMargin: bool,
             isIncoming: bool, isPseudoBubble: bool, timestampInsideMessage: bool, addMessageOverlay: bool,
             layoutRes: int)
    | ScBubble(showAvatar: bool, showDisplayName: bool, showTimestamp: bool, bubbleAppearance: ScBubbleAppearance,
               isIncoming: bool, reverseBubble: bool, singleSidedLayout: bool, isRealBubble: bool,
               isPseudoBubble: bool, isNotice: bool, timestampAsOverlay: bool,
               layoutRes: int, bubbleDrawable: int)

  /** `Default(...)` with its default `layoutRes`. */
  function NewDefault(showAvatar: bool, showDisplayName: bool, showTimestamp: bool): (l: Layout)
    ensures l.Default? && l.layoutRes == 0
    ensures l.showAvatar == showAvatar && l.showDisplayName == showDisplayName && l.showTimestamp == showTimestamp
  {
    Default(showAvatar, showDisplayName, showTimestamp, 0)
  }

  /** The default `layoutRes` of `Bubble`. */
  function BubbleLayoutRes(ids: LayoutIds, isIncoming: bool): (res: int)
    requires DistinctNonZero(ids)
    ensures res == ids.bubbleIncomingBase <==> isIncoming
    ensures res == ids.bubbleOutgoingBase <==> !isIncoming
  {
    if isIncoming then ids.bubbleIncomingBase else ids.bubbleOutgoingBase
  }

  /** The default `layoutRes` of `ScBubble`. */
  function ScBubbleLayoutRes(ids: LayoutIds, isIncoming: bool): (res: int)
    requires DistinctNonZero(ids)
    ensures res == ids.scBubbleIncomingBase <==> isIncoming
    ensures res == ids.scBubbleOutgoingBase <==> !isIncoming
  {
    if isIncoming then ids.scBubbleIncomingBase else ids.scBubbleOutgoingBase
  }

  /** The default `bubbleDrawable` of `ScBubble`. */
  function ScBubbleDrawable(appearance: ScBubbleAppearance, isPseudoBubble: bool, showAvatar: bool, reverseBubble: bool): (d: int)
    ensures isPseudoBubble ==> d == 0
    ensures !isPseudoBubble && showAvatar ==>
      d == (if reverseBubble then appearance.textBubbleOutgoing else appearance.textBubbleIncoming)
    ensures !isPseudoBubble && !showAvatar ==>
      d == (if reverseBubble then appearance.textBubbleOutgoingNoTail else appearance.textBubbleIncomingNoTail)
  {
    if isPseudoBubble then 0
    else if showAvatar then (if reverseBubble then appearance.textBubbleOutgoing else appearance.textBubbleIncoming)
    else (if reverseBubble then appearance.textBubbleOutgoingNoTail else appearance.textBubbleIncomingNoTail)
  }

  /** `Bubble(...)` with every defaulted argument left at its default. */
  function NewBubble(ids: LayoutIds, showAvatar: bool, showDisplayName: bool, isIncoming: bool, isPseudoBubble: bool,
                     timestampInsideMessage: bool, addMessageOverlay: bool): (l: Layout)
    requires DistinctNonZero(ids)
    ensures l.Bubble? && l.showTimestamp && !l.addTopMargin
    ensures l.layoutRes == BubbleLayoutRes(ids, isIncoming) && l.layoutRes != 0
    ensures l.layoutRes == ids.bubbleIncomingBase <==> isIncoming
    ensures l.layoutRes == ids.bubbleOutgoingBase <==> !isIncoming
    ensures l.showAvatar == showAvatar && l.showDisplayName == showDisplayName
    ensures l.isIncoming == isIncoming && l.isPseudoBubble == isPseudoBubble
    ensures l.timestampInsideMessage == timestampInsideMessage && l.addMessageOverlay == addMessageOverlay
  {
    Bubble(showAvatar, showDisplayName, true, false, isIncoming, isPseudoBubble, timestampInsideMessage, addMessageOverlay,
           BubbleLayoutRes(ids, isIncoming))
  }

  /** `ScBubble(...)` with every defaulted argument left at its default. */
  function NewScBubble(ids: LayoutIds, showAvatar: bool, showDisplayName: bool, appearance: ScBubbleAppearance,
                       isIncoming: bool, reverseBubble: bool, singleSidedLayout: bool, isRealBubble: bool,
                       isPseudoBubble: bool, isNotice: bool, timestampAsOverlay: bool): (l: Layout)
    requires DistinctNonZero(ids)
    ensures l.ScBubble? && l.showTimestamp
    ensures l.layoutRes == ScBubbleLayoutRes(ids, isIncoming) && l.layoutRes != 0
    ensures l.layoutRes == ids.scBubbleIncomingBase <==> isIncoming
    ensures l.layoutRes == ids.scBubbleOutgoingBase <==> !isIncoming
    ensures l.showAvatar == showAvatar && l.showDisplayName == showDisplayName && l.bubbleAppearance == appearance
    ensures l.isIncoming == isIncoming && l.reverseBubble == reverseBubble && l.singleSidedLayout == singleSidedLayout
    ensures l.isRealBubble == isRealBubble && l.isPseudoBubble == isPseudoBubble && l.isNotice == isNotice
    ensures l.timestampAsOverlay == timestampAsOverlay
    ensures isPseudoBubble ==> l.bubbleDrawable == 0
    ensures l.bubbleDrawable == ScBubbleDrawable(appearance, isPseudoBubble, showAvatar, reverseBubble)
  {
    ScBubble(showAvatar, showDisplayName, true, appearance, isIncoming, reverseBubble, singleSidedLayout, isRealBubble,
             isPseudoBubble, isNotice, timestampAsOverlay, ScBubbleLayoutRes(ids, isIncoming),
             ScBubbleDrawable(appearance, isPseudoBubble, showAvatar, reverseBubble))
  }

  /** `showsE2eDecorationInFooter`; `infoInBubbles` is not part of this model and is an input. */
  function ShowsE2eDecorationInFooter(layout: Layout, infoInBubbles: Layout -> bool): (r: bool)
    ensures !layout.ScBubble? ==> !r
    ensures layout.ScBubble? ==> r == infoInBubbles(layout)
  {
    match layout
    case ScBubble(_, _, _, _, _, _, _, _, _, _, _, _, _) => infoInBubbles(layout)
    case _ => false
  }
}
