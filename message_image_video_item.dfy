/**
 * `MessageImageVideoItem` from features/home/room/detail/timeline/item: where the
 * timestamp footer of an image or video message goes (over the image, below it or
 * beside it), the two values it remembers between layout passes, and the
 * animation and play-icon decisions of `bind`.
 */
module MessageImageVideoItem {
  import opened Wrappers

  const TwoTo32: int := 0x1_0000_0000
  const IntMin: int := -0x8000_0000
  const IntMax: int := 0x7FFF_FFFF

  predicate IsInt(x: int) { IntMin <= x <= IntMax }

  /** Kotlin `Int` arithmetic: the result wraps around to 32 bits. */
  function Wrap(x: int): (r: int)
    ensures IsInt(r)
    ensures IsInt(x) ==> r == x
  {
    (x - IntMin) % TwoTo32 + IntMin
  }

  /** `ImageContentRenderer.Mode`. */
  datatype Mode = Thumbnail | AnimatedThumbnail | FullSize | Sticker

  const MsgTypeImage: string := "m.image"
  const MsgTypeStickerLocal: string := "org.matrix.android.sdk.sticker"

  /** Kotlin's `Char.isWhitespace()`. */
  predicate IsWhitespace(c: char)
  {
    || '\U{0009}' <= c <= '\U{000D}' || '\U{001C}' <= c <= '\U{001F}' || c == ' ' || c == '\U{00A0}'
    || c == '\U{1680}' || '\U{2000}' <= c <= '\U{200A}' || c == '\U{2028}' || c == '\U{2029}'
    || c == '\U{202F}' || c == '\U{205F}' || c == '\U{3000}'
  }

  /** `hasCaption`: the caption is neither null nor blank. */
  predicate HasCaption(caption: Option<string>)
    ensures HasCaption(caption) <==> !(caption.None? || forall i :: 0 <= i < |caption.value| ==> IsWhitespace(caption.value[i]))
    ensures HasCaption(caption) ==> |caption.value| > 0
  {
    caption.Some? && exists i :: 0 <= i < |caption.value| && !IsWhitespace(caption.value[i])
  }

  /** `needsRealBubble`. */
  predicate NeedsRealBubble(caption: Option<string>, isReply: bool)
    ensures isReply ==> NeedsRealBubble(caption, isReply)
    ensures !isReply ==> (NeedsRealBubble(caption, isReply) <==> HasCaption(caption))
  {
    HasCaption(caption) || isReply
  }

  /** `shouldAllowFooterOverlay`: `x > 1.5*y` on doubles is `2x > 3y`; the two area
      products are `Int` products and wrap. */
  function ShouldAllowFooterOverlay(caption: Option<string>, footerWidth: int, footerHeight: int, imageWidth: int, imageHeight: int): (r: bool)
    requires IsInt(footerWidth) && IsInt(footerHeight) && IsInt(imageWidth) && IsInt(imageHeight)
    ensures HasCaption(caption) ==> r
    ensures !HasCaption(caption) ==>
      (r <==> 2 * imageWidth > 3 * footerWidth && 2 * imageHeight > 3 * footerHeight
              && Wrap(imageWidth * imageHeight) > Wrap(4 * footerWidth * footerHeight))
  {
    if HasCaption(caption) then true
    else
      WrapProduct(footerWidth, footerHeight);
      2 * imageWidth > 3 * footerWidth && 2 * imageHeight > 3 * footerHeight
      && Wrap(imageWidth * imageHeight) > Wrap(Wrap(4 * footerWidth) * footerHeight)
  }

  /** Wrapping after each multiplication is wrapping once. */
  lemma WrapProduct(fw: int, fh: int)
    ensures Wrap(Wrap(4 * fw) * fh) == Wrap(4 * fw * fh)
  {
    var w := Wrap(4 * fw);
    var k := (4 * fw - IntMin) / TwoTo32;
    assert w == 4 * fw - k * TwoTo32;
    assert w * fh == 4 * fw * fh - (k * fh) * TwoTo32;
    WrapShift(4 * fw * fh, k * fh);
  }

  lemma WrapShift(x: int, k: int)
    ensures Wrap(x - k * TwoTo32) == Wrap(x)
  {
    assert (x - k * TwoTo32 - IntMin) == (x - IntMin) + (-k) * TwoTo32;
  }

  /** `shouldShowFooterBellow`. */
  function ShouldShowFooterBellow(caption: Option<string>, footerWidth: int, footerHeight: int, imageWidth: int, imageHeight: int): (r: bool)
    ensures HasCaption(caption) ==> !r
    ensures !HasCaption(caption) ==> (r <==> 2 * imageWidth > 3 * footerWidth && 2 * imageHeight < 3 * footerHeight)
  {
    if HasCaption(caption) then false
    else 2 * imageWidth > 3 * footerWidth && 2 * imageHeight < 3 * footerHeight
  }

  /** Without a caption, the footer is never both over and below the image. */
  lemma OverlayAndBelowExclusive(caption: Option<string>, fw: int, fh: int, w: int, h: int)
    requires IsInt(fw) && IsInt(fh) && IsInt(w) && IsInt(h)
    requires !HasCaption(caption)
    ensures !(ShouldAllowFooterOverlay(caption, fw, fh, w, h) && ShouldShowFooterBellow(caption, fw, fh, w, h))
  {
  }

  /** While neither area overflows an `Int`, the overlay test is the exact comparison
      of the image area with four times the footer area. */
  lemma OverlayExactWithoutOverflow(caption: Option<string>, fw: int, fh: int, w: int, h: int)
    requires IsInt(fw) && IsInt(fh) && IsInt(w) && IsInt(h)
    requires !HasCaption(caption)
    requires IsInt(w * h) && IsInt(4 * fw * fh)
    ensures ShouldAllowFooterOverlay(caption, fw, fh, w, h) <==> 2 * w > 3 * fw && 2 * h > 3 * fh && w * h > 4 * fw * fh
  {
  }

  /** An image of 46341 x 46341 pixels overflows the area product and the footer is
      moved out of the image although it would fit. */
  lemma OverlayOverflowExample()
    ensures 46341 * 46341 > 4 * 10 * 10
    ensures !ShouldAllowFooterOverlay(None, 10, 10, 46341, 46341)
  {
    assert Wrap(46341 * 46341) == 46341 * 46341 - TwoTo32;
  }

  /** The play-related decisions of `bind`. */
  function Animate(playable: bool, messageType: string, autoplayAnimatedImages: bool): (r: bool)
    ensures r <==> playable && messageType in {MsgTypeImage, MsgTypeStickerLocal} && autoplayAnimatedImages
  {
    playable && messageType in [MsgTypeImage, MsgTypeStickerLocal] && autoplayAnimatedImages
  }

  function EffectiveMode(animate: bool, mode: Mode): (r: Mode)
    ensures r == AnimatedThumbnail <==> (animate && mode == Thumbnail) || mode == AnimatedThumbnail
    ensures r != AnimatedThumbnail ==> r == mode
  {
    if animate && mode == Thumbnail then AnimatedThumbnail else mode
  }

  function PlayIconVisible(animate: bool, playable: bool): (r: bool)
    ensures r <==> playable && !animate
  {
    if animate then false else if playable then true else false
  }

  /** An animated image never shows the play icon, and a non-playable item never animates. */
  lemma AnimationHidesPlayIcon(playable: bool, messageType: string, autoplay: bool)
    ensures Animate(playable, messageType, autoplay) ==> !PlayIconVisible(true, playable)
    ensures !playable ==> !Animate(playable, messageType, autoplay) && !PlayIconVisible(false, playable)
  {
  }

  /** `getScBubbleMargin`, given the margin of the parent class. */
  function ScBubbleMargin(caption: Option<string>, isReply: bool, superMargin: int): (r: int)
    ensures NeedsRealBubble(caption, isReply) ==> r == superMargin
    ensures !HasCaption(caption) && !isReply ==> r == 0
  {
    if NeedsRealBubble(caption, isReply) then superMargin else 0
  }

  /** `needsFooterReservation`. */
  function NeedsFooterReservation(caption: Option<string>): (r: bool)
    ensures r <==> HasCaption(caption)
  {
    HasCaption(caption)
  }

  /** The item with its remembered footer state. */
  class Item {
    const caption: Option<string>
    const playable: bool
    const mode: Mode
    var lastAllowedFooterOverlay: bool
    var lastShowFooterBellow: bool
    var forceAllowFooterOverlay: Option<bool>
    var showFooterBellow: bool

    constructor (caption: Option<string>, playable: bool, mode: Mode)
      ensures this.caption == caption && this.playable == playable && this.mode == mode
      ensures lastAllowedFooterOverlay && lastShowFooterBellow && forceAllowFooterOverlay.None? && showFooterBellow
    {
      this.caption := caption;
      this.playable := playable;
      this.mode := mode;
      lastAllowedFooterOverlay := true;
      lastShowFooterBellow := true;
      forceAllowFooterOverlay := None;
      showFooterBellow := true;
    }

    /** The decisions of `bind`, which also forgets the remembered overlay value. */
    method Bind(messageType: string, autoplayAnimatedImages: bool) returns (animate: bool, effectiveMode: Mode, playIconVisible: bool)
      modifies this
      ensures forceAllowFooterOverlay.None?
      ensures lastAllowedFooterOverlay == old(lastAllowedFooterOverlay) && lastShowFooterBellow == old(lastShowFooterBellow)
      ensures showFooterBellow == old(showFooterBellow)
      ensures animate == Animate(playable, messageType, autoplayAnimatedImages)
      ensures effectiveMode == EffectiveMode(animate, mode)
      ensures playIconVisible == PlayIconVisible(animate, playable)
    {
      forceAllowFooterOverlay := None;
      animate := Animate(playable, messageType, autoplayAnimatedImages);
      effectiveMode := if animate && mode == Thumbnail then AnimatedThumbnail else mode;
      playIconVisible := if animate then false else if playable then true else false;
    }

    /** `onImageSizeUpdated`: remember the overlay decision for the new size and, when a
        decision changed, take the new below-decision and ask for a new layout.
        `hasBubbleWrapView` is false when the item is not in a bubble wrap view. */
    method OnImageSizeUpdated(hasBubbleWrapView: bool, footerWidth: int, footerHeight: int, width: int, height: int)
      returns (relayout: bool)
      requires IsInt(footerWidth) && IsInt(footerHeight) && IsInt(width) && IsInt(height)
      modifies this
      ensures !hasBubbleWrapView ==> !relayout && forceAllowFooterOverlay == old(forceAllowFooterOverlay) && showFooterBellow == old(showFooterBellow)
      ensures hasBubbleWrapView ==>
        var overlay := ShouldAllowFooterOverlay(caption, footerWidth, footerHeight, width, height);
        var below := ShouldShowFooterBellow(caption, footerWidth, footerHeight, width, height);
        && forceAllowFooterOverlay == Some(overlay)
        && relayout == (lastAllowedFooterOverlay != overlay || below != lastShowFooterBellow)
        && showFooterBellow == (if relayout then below else old(showFooterBellow))
      ensures lastAllowedFooterOverlay == old(lastAllowedFooterOverlay) && lastShowFooterBellow == old(lastShowFooterBellow)
    {
      relayout := false;
      if !hasBubbleWrapView {
        return;
      }
      var overlay := ShouldAllowFooterOverlay(caption, footerWidth, footerHeight, width, height);
      forceAllowFooterOverlay := Some(overlay);
      var newShowFooterBellow := ShouldShowFooterBellow(caption, footerWidth, footerHeight, width, height);
      if lastAllowedFooterOverlay != overlay || newShowFooterBellow != lastShowFooterBellow {
        showFooterBellow := newShowFooterBellow;
        relayout := true;
      }
    }

    /** `allowFooterOverlay`. */
    method AllowFooterOverlay(imageWidth: int, imageHeight: int, footerWidth: int, footerHeight: int) returns (allow: bool)
      requires IsInt(footerWidth) && IsInt(footerHeight) && IsInt(imageWidth) && IsInt(imageHeight)
      modifies this
      ensures HasCaption(caption) ==> allow && lastAllowedFooterOverlay == old(lastAllowedFooterOverlay)
      ensures !HasCaption(caption) ==> lastAllowedFooterOverlay == allow
      ensures !HasCaption(caption) && old(forceAllowFooterOverlay).Some? ==> allow == old(forceAllowFooterOverlay).value
      ensures !HasCaption(caption) && old(forceAllowFooterOverlay).None? && imageWidth == 0 && imageHeight == 0 ==> allow
      ensures !HasCaption(caption) && old(forceAllowFooterOverlay).None? && !(imageWidth == 0 && imageHeight == 0) ==>
        allow == ShouldAllowFooterOverlay(caption, footerWidth, footerHeight, imageWidth, imageHeight)
      ensures forceAllowFooterOverlay == old(forceAllowFooterOverlay) && showFooterBellow == old(showFooterBellow)
      ensures lastShowFooterBellow == old(lastShowFooterBellow)
    {
      if HasCaption(caption) {
        return true;
      }
      var rememberedAllowFooterOverlay := forceAllowFooterOverlay;
      if rememberedAllowFooterOverlay.Some? {
        lastAllowedFooterOverlay := rememberedAllowFooterOverlay.value;
        return rememberedAllowFooterOverlay.value;
      }
      if imageWidth == 0 && imageHeight == 0 {
        lastAllowedFooterOverlay := true;
        return true;
      }
      lastAllowedFooterOverlay := ShouldAllowFooterOverlay(caption, footerWidth, footerHeight, imageWidth, imageHeight);
      return lastAllowedFooterOverlay;
    }

    /** `allowFooterBelow`. */
    method AllowFooterBelow() returns (allow: bool)
      modifies this
      ensures HasCaption(caption) ==> allow && lastShowFooterBellow == old(lastShowFooterBellow)
      ensures !HasCaption(caption) ==> allow == old(showFooterBellow) && lastShowFooterBellow == allow
      ensures showFooterBellow == old(showFooterBellow) && forceAllowFooterOverlay == old(forceAllowFooterOverlay)
      ensures lastAllowedFooterOverlay == old(lastAllowedFooterOverlay)
    {
      if HasCaption(caption) {
        return true;
      }
      var showBellow := showFooterBellow;
      lastShowFooterBellow := showBellow;
      return showBellow;
    }
  }
}
