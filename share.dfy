/**
 * Sharing the grid (`shareBlocks`): a fixed 1200 x 1200 image with the
 * capture and the caption, handed to the platform's share sheet when
 * `navigator.share` exists and downloaded otherwise.
 */
module Share {
  import opened Wrappers
  import opened Export

  const ShareSize: int := 1200
  const SharePaddingRatio: real := 0.06
  /** Height of the band kept for the caption below the image. */
  const ShareTextHeight: real := 40.0
  const ShareFill: real := 0.98
  const ShareFileName: string := "life-blocks.png"
  const ShareTitle: string := "生命周数"

  /** Side of the square left for the image: 1200 less 6% padding on both sides and the caption band. */
  function AvailableSize(): real
  {
    ShareSize as real - ShareSize as real * SharePaddingRatio * 2.0 - ShareTextHeight
  }

  /**
   * The placement as the source computes it: the scaled width is used as
   * both sides of the drawn image, so the capture is drawn into a square.
   */
  function ShareImageRectAsWritten(capture: Size): Rect
    requires capture.width > 0 && capture.height > 0
  {
    var scale := FitScale(AvailableSize(), AvailableSize(), capture.width as real, capture.height as real, ShareFill);
    var scaledSize := capture.width as real * scale;
    Rect((ShareSize as real - scaledSize) / 2.0, (ShareSize as real - scaledSize - ShareTextHeight) / 2.0,
         scaledSize, scaledSize)
  }

  /** As written, the shared image keeps the capture's aspect ratio only when the capture is square. */
  lemma AsWrittenKeepsAspectOnlyWhenSquare(capture: Size)
    requires capture.width > 0 && capture.height > 0
    ensures var r := ShareImageRectAsWritten(capture);
      r.width * capture.height as real == r.height * capture.width as real <==> capture.width == capture.height
  {
    var cw, ch := capture.width as real, capture.height as real;
    FitScaleFits(AvailableSize(), AvailableSize(), cw, ch, ShareFill);
    var s := cw * FitScale(AvailableSize(), AvailableSize(), cw, ch, ShareFill);
    assert s > 0.0;
    if s * ch == s * cw {
      assert ch == cw;
    }
  }

  /**
   * A landscape 500 x 400 capture is drawn as a 995.68 square, stretched
   * vertically by a quarter: at its own aspect it would be 796.544 high.
   */
  lemma AsWrittenStretchesLandscapeCapture()
    ensures var r := ShareImageRectAsWritten(Size(500, 400));
      r == Rect(102.16, 82.16, 995.68, 995.68) && r.width * 400.0 != r.height * 500.0
    ensures ShareImageRect(Size(500, 400)).height == 796.544
  {
  }

  /** The placement with the capture's own aspect ratio, as the export routine draws it. */
  function ShareImageRect(capture: Size): Rect
    requires capture.width > 0 && capture.height > 0
  {
    var scale := FitScale(AvailableSize(), AvailableSize(), capture.width as real, capture.height as real, ShareFill);
    var scaledWidth := capture.width as real * scale;
    var scaledHeight := capture.height as real * scale;
    Rect((ShareSize as real - scaledWidth) / 2.0, (ShareSize as real - scaledHeight - ShareTextHeight) / 2.0,
         scaledWidth, scaledHeight)
  }

  /** The corrected placement differs from the source's exactly for non-square captures. */
  lemma CorrectionAgreesOnSquareCaptures(capture: Size)
    requires capture.width > 0 && capture.height > 0
    ensures ShareImageRect(capture) == ShareImageRectAsWritten(capture) <==> capture.width == capture.height
  {
    var cw, ch := capture.width as real, capture.height as real;
    FitScaleFits(AvailableSize(), AvailableSize(), cw, ch, ShareFill);
    var s := FitScale(AvailableSize(), AvailableSize(), cw, ch, ShareFill);
    assert s > 0.0;
    if ch * s == cw * s {
      assert ch == cw;
    }
  }

  /** Where the caption is anchored: centred, halfway into the bottom padding. */
  function ShareCaptionAt(): Point
  {
    Point(ShareSize as real / 2.0, ShareSize as real - ShareSize as real * SharePaddingRatio / 2.0)
  }

  /**
   * The shared image keeps the capture's aspect ratio, is centred
   * horizontally and, vertically, in the space above the caption band,
   * stays inside the padding, leaves the caption band free,
   * and the caption sits below it.
   */
  lemma ShareImageFits(capture: Size)
    requires capture.width > 0 && capture.height > 0
    ensures var r, p := ShareImageRect(capture), ShareSize as real * SharePaddingRatio;
      r.width > 0.0 && r.height > 0.0
      && r.width * capture.height as real == r.height * capture.width as real
      && r.x + r.width / 2.0 == ShareSize as real / 2.0
      && r.y + r.height / 2.0 == (ShareSize as real - ShareTextHeight) / 2.0
      && p <= r.x && r.x + r.width <= ShareSize as real - p
      && p <= r.y && r.y + r.height + ShareTextHeight <= ShareSize as real - p
      && r.y + r.height < ShareCaptionAt().y < ShareSize as real
  {
    var cw, ch := capture.width as real, capture.height as real;
    FitScaleFits(AvailableSize(), AvailableSize(), cw, ch, ShareFill);
    var s := FitScale(AvailableSize(), AvailableSize(), cw, ch, ShareFill);
    assert (cw * s) * ch == (ch * s) * cw;
  }

  /** How the finished image leaves the app. */
  datatype Delivery =
    | NativeShare(title: string, text: string, fileName: string)
    | Download(fileName: string)

  /** Everything `shareBlocks` computes before handing the image to the browser. */
  datatype SharePlan = SharePlan(
    size: int,
    background: string,
    image: Rect,
    caption: string, captionColor: string, captionAt: Point,
    delivery: Delivery)

  /**
   * `shareBlocks`: nothing happens before the grid is mounted; otherwise
   * the square image, with the capture drawn at its own aspect ratio
   * (`ShareImageRect`, the corrected placement), shared with the caption
   * as text when `navigator.share` exists, and downloaded as
   * `life-blocks.png` when it does not.
   */
  function ShareBlocks(isMounted: bool, capture: Size, isDarkTheme: bool, caption: string, canShare: bool)
    : (r: Option<SharePlan>)
    requires capture.width > 0 && capture.height > 0
    ensures r.None? <==> !isMounted
    ensures r.Some? ==> r.value.size == ShareSize && r.value.image == ShareImageRect(capture)
    ensures r.Some? ==> r.value.background == Background(isDarkTheme) && r.value.captionColor == CaptionColor(isDarkTheme)
    ensures r.Some? ==> r.value.caption == caption && r.value.captionAt == ShareCaptionAt()
    ensures r.Some? ==> r.value.delivery.fileName == ShareFileName
    ensures r.Some? ==> (r.value.delivery.NativeShare? <==> canShare)
  {
    if !isMounted then None
    else
      Some(SharePlan(ShareSize, Background(isDarkTheme), ShareImageRect(capture),
                     caption, CaptionColor(isDarkTheme), ShareCaptionAt(),
                     if canShare then NativeShare(ShareTitle, caption, ShareFileName) else Download(ShareFileName)))
  }

  /** The download fallback delivers the same image as the share sheet would. */
  lemma FallbackDeliversSameImage(capture: Size, isDarkTheme: bool, caption: string)
    requires capture.width > 0 && capture.height > 0
    ensures var shared, downloaded := ShareBlocks(true, capture, isDarkTheme, caption, true),
                                      ShareBlocks(true, capture, isDarkTheme, caption, false);
      shared.Some? && downloaded.Some?
      && shared.value.(delivery := downloaded.value.delivery) == downloaded.value
      && shared.value.delivery == NativeShare(ShareTitle, caption, ShareFileName)
  {
  }
}
