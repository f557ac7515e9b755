/**
 * Exporting the grid as an image (`exportBlocks`): the output size chosen
 * by the format switch, the placement of the captured bitmap and of the
 * caption on the output canvas, and the download file name. Canvas
 * coordinates are modelled as real numbers.
 */
module Export {
  import opened Wrappers
  import Strings

  /** Integer pixel dimensions of a canvas or bitmap. */
  datatype Size = Size(width: int, height: int)

  /** Where an image is drawn: top-left corner and drawn size. */
  datatype Rect = Rect(x: real, y: real, width: real, height: real)

  datatype Point = Point(x: real, y: real)

  /** Canvas fill colour for the theme. */
  function Background(isDarkTheme: bool): string
  {
    if isDarkTheme then "#1a1a1a" else "#ffffff"
  }

  /** Muted caption colour for the theme. */
  function CaptionColor(isDarkTheme: bool): string
  {
    if isDarkTheme then "#888" else "#666"
  }

  /** The output presets: `pc` 4K landscape, `mobile` tall portrait, `social` square. */
  function Preset(format: string): (r: Option<Size>)
    ensures r.Some? <==> format == "pc" || format == "mobile" || format == "social"
    ensures r.Some? ==> r.value.width > 0 && r.value.height > 0
  {
    if format == "pc" then Some(Size(3840, 2160))
    else if format == "mobile" then Some(Size(1440, 3200))
    else if format == "social" then Some(Size(1200, 1200))
    else None
  }

  /** The format `switch`: a preset's size, or the captured bitmap's own size for any other format. */
  method FinalSize(format: string, capture: Size) returns (finalWidth: int, finalHeight: int)
    ensures Size(finalWidth, finalHeight) == Preset(format).GetOr(capture)
    ensures Preset(format).None? ==> finalWidth == capture.width && finalHeight == capture.height
  {
    if format == "pc" {
      finalWidth := 3840;
      finalHeight := 2160;
    } else if format == "mobile" {
      finalWidth := 1440;
      finalHeight := 3200;
    } else if format == "social" {
      finalWidth := 1200;
      finalHeight := 1200;
    } else {
      finalWidth := capture.width;
      finalHeight := capture.height;
    }
  }

  /** Shapes of the presets: `pc` is 16:9 landscape, `mobile` 9:20 portrait, `social` square. */
  lemma PresetShapes()
    ensures Preset("pc") == Some(Size(3840, 2160)) && 9 * 3840 == 16 * 2160
    ensures Preset("mobile") == Some(Size(1440, 3200)) && 20 * 1440 == 9 * 3200 && 1440 < 3200
    ensures Preset("social") == Some(Size(1200, 1200))
  {
  }

  function Min(a: real, b: real): (m: real)
    ensures m <= a && m <= b && (m == a || m == b)
  {
    if a <= b then a else b
  }

  /**
   * The uniform scale used to draw a `cw` x `ch` bitmap into a box of
   * `aw` x `ah`: the ratio of the tighter side, times a `fill` margin.
   */
  function FitScale(aw: real, ah: real, cw: real, ch: real, fill: real): real
    requires cw > 0.0 && ch > 0.0
  {
    Min(aw / cw, ah / ch) * fill
  }

  /**
   * The scaled bitmap fits the box after the fill margin, and touches
   * it on at least one side.
   */
  lemma FitScaleFits(aw: real, ah: real, cw: real, ch: real, fill: real)
    requires cw > 0.0 && ch > 0.0 && aw > 0.0 && ah > 0.0 && fill > 0.0
    ensures var s := FitScale(aw, ah, cw, ch, fill);
      s > 0.0 && cw * s <= fill * aw && ch * s <= fill * ah
      && (cw * s == fill * aw || ch * s == fill * ah)
  {
    var m := Min(aw / cw, ah / ch);
    var s := m * fill;
    assert cw * (aw / cw) == aw;
    assert ch * (ah / ch) == ah;
    assert cw * m <= aw by {
      assert cw * m <= cw * (aw / cw);
    }
    assert ch * m <= ah by {
      assert ch * m <= ch * (ah / ch);
    }
    assert cw * s == (cw * m) * fill;
    assert ch * s == (ch * m) * fill;
  }

  const ExportPaddingRatio: real := 0.05
  /** Height of the band kept for the caption below the image. */
  const ExportTextHeight: real := 60.0
  const ExportFill: real := 0.95

  /** Where `exportBlocks` draws the captured bitmap on a `final`-sized canvas. */
  function ExportImageRect(final: Size, capture: Size): Rect
    requires capture.width > 0 && capture.height > 0
  {
    var finalWidth, finalHeight := final.width as real, final.height as real;
    var paddingX := finalWidth * ExportPaddingRatio;
    var paddingY := finalHeight * ExportPaddingRatio;
    var availableWidth := finalWidth - paddingX * 2.0;
    var availableHeight := finalHeight - paddingY * 2.0 - ExportTextHeight;
    var scale := FitScale(availableWidth, availableHeight, capture.width as real, capture.height as real, ExportFill);
    var scaledWidth := capture.width as real * scale;
    var scaledHeight := capture.height as real * scale;
    Rect((finalWidth - scaledWidth) / 2.0, (finalHeight - scaledHeight - ExportTextHeight) / 2.0, scaledWidth, scaledHeight)
  }

  /** Where the caption is anchored: centred, halfway into the bottom padding. */
  function ExportCaptionAt(final: Size): Point
  {
    Point(final.width as real / 2.0, final.height as real - final.height as real * ExportPaddingRatio / 2.0)
  }

  /**
   * On a canvas with room left after padding and caption band, the bitmap
   * keeps its aspect ratio, is centred horizontally and, vertically, in the
   * space above the caption band, stays inside the padding on every side, leaves the caption band free, and the caption
   * sits below it.
   */
  lemma ExportImageFits(final: Size, capture: Size)
    requires capture.width > 0 && capture.height > 0
    requires final.width > 0 && final.height as real * 0.9 > ExportTextHeight
    ensures var r, pX, pY := ExportImageRect(final, capture),
                            final.width as real * ExportPaddingRatio, final.height as real * ExportPaddingRatio;
      r.width > 0.0 && r.height > 0.0
      && r.width * capture.height as real == r.height * capture.width as real
      && r.x + r.width / 2.0 == final.width as real / 2.0
      && r.y + r.height / 2.0 == (final.height as real - ExportTextHeight) / 2.0
      && pX <= r.x && r.x + r.width <= final.width as real - pX
      && pY <= r.y && r.y + r.height + ExportTextHeight <= final.height as real - pY
      && r.y + r.height < ExportCaptionAt(final).y < final.height as real
  {
    var finalWidth, finalHeight := final.width as real, final.height as real;
    var cw, ch := capture.width as real, capture.height as real;
    var aw := finalWidth - finalWidth * ExportPaddingRatio * 2.0;
    var ah := finalHeight - finalHeight * ExportPaddingRatio * 2.0 - ExportTextHeight;
    FitScaleFits(aw, ah, cw, ch, ExportFill);
    var s := FitScale(aw, ah, cw, ch, ExportFill);
    assert (cw * s) * ch == (ch * s) * cw;
  }

  /** Every preset leaves room for the bitmap, so the placement above holds for it. */
  lemma PresetImageFits(format: string)
    requires Preset(format).Some?
    ensures var final := Preset(format).value;
      final.width > 0 && final.height as real * 0.9 > ExportTextHeight
  {
  }

  /** `isoString.split('T')[0]`: the calendar date of an ISO-8601 timestamp. */
  function DatePart(isoString: string): (d: string)
    ensures d <= isoString && 'T' !in d
    ensures |d| == |isoString| || isoString[|d|] == 'T'
  {
    Strings.SplitHead(isoString, 'T');
    Strings.Split(isoString, 'T')[0]
  }

  /** For a `toISOString()` value, `YYYY-MM-DDTHH:mm:ss.sssZ`, the date part is the first ten characters. */
  lemma IsoDatePart(isoString: string)
    requires |isoString| == 24 && isoString[10] == 'T' && 'T' !in isoString[..10]
    ensures DatePart(isoString) == isoString[..10]
  {
  }

  /** `life-blocks-<format>-<date>.png`. */
  function FileName(format: string, isoString: string): string
  {
    "life-blocks-" + format + "-" + DatePart(isoString) + ".png"
  }

  /** For a `toISOString()` value the download is named after its first ten characters, the date. */
  lemma IsoFileName(format: string, isoString: string)
    requires |isoString| == 24 && isoString[10] == 'T' && 'T' !in isoString[..10]
    ensures FileName(format, isoString) == "life-blocks-" + format + "-" + isoString[..10] + ".png"
  {
    IsoDatePart(isoString);
  }

  /** Everything `exportBlocks` computes before handing the canvas to the browser. */
  datatype ExportPlan = ExportPlan(
    width: int, height: int,
    background: string,
    image: Rect,
    caption: string, captionColor: string, captionAt: Point,
    fileName: string)

  /** The plan for a mounted grid whose capture has size `capture`. */
  function ExportPlanFor(format: string, capture: Size, isDarkTheme: bool, caption: string, isoNow: string): ExportPlan
    requires capture.width > 0 && capture.height > 0
  {
    var final := Preset(format).GetOr(capture);
    ExportPlan(final.width, final.height, Background(isDarkTheme),
               ExportImageRect(final, capture),
               caption, CaptionColor(isDarkTheme), ExportCaptionAt(final),
               FileName(format, isoNow))
  }

  /**
   * `exportBlocks`: nothing happens before the grid is mounted; otherwise
   * the plan above, with the final size chosen by the format switch.
   */
  method ExportBlocks(isMounted: bool, format: string, capture: Size, isDarkTheme: bool, caption: string, isoNow: string)
    returns (plan: Option<ExportPlan>)
    requires capture.width > 0 && capture.height > 0
    ensures plan == if isMounted then Some(ExportPlanFor(format, capture, isDarkTheme, caption, isoNow)) else None
  {
    if !isMounted {
      return None;
    }
    var finalWidth, finalHeight := FinalSize(format, capture);
    var final := Size(finalWidth, finalHeight);
    plan := Some(ExportPlan(finalWidth, finalHeight, Background(isDarkTheme),
                            ExportImageRect(final, capture),
                            caption, CaptionColor(isDarkTheme), ExportCaptionAt(final),
                            FileName(format, isoNow)));
  }

  /**
   * For the same capture, the light and dark export plans differ in the
   * two colours and nothing else. The capture itself also follows the
   * theme, which this module does not see.
   */
  lemma ThemeChangesOnlyColours(format: string, capture: Size, caption: string, isoNow: string)
    requires capture.width > 0 && capture.height > 0
    ensures var light, dark := ExportPlanFor(format, capture, false, caption, isoNow),
                               ExportPlanFor(format, capture, true, caption, isoNow);
      light.background != dark.background && light.captionColor != dark.captionColor
      && dark == light.(background := Background(true), captionColor := CaptionColor(true))
  {
  }

  /** A `pc` export of a 500 x 400 bitmap: 3840 x 2160, the bitmap scaled by 4.4745 and centred above the caption. */
  lemma PcExportExample()
    ensures var p := ExportPlanFor("pc", Size(500, 400), false, "", "2026-10-14T08:30:00.000Z");
      p.width == 3840 && p.height == 2160
      && p.image == Rect(801.375, 155.1, 2237.25, 1789.8)
  {
  }
}
