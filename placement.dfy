/** Placement geometry of the watermark service: where a watermark goes on an
    image (concrete pixel offsets) and on a video (an overlay expression over
    the symbolic sizes W, H, w, h that the transcoder resolves per frame). */
module Placement {

  /** Margin, in pixels, between the watermark and the edge it is anchored to. */
  const Padding: int := 20

  /** Decimal rendering of Padding, as it appears inside overlay expressions. */
  const PaddingText: string := "20"

  /** Offset of the watermark's top-left corner inside the image. */
  datatype Offset = Offset(top: int, left: int)

  /** The seven named anchors the service knows. */
  datatype Anchor = TopLeft | TopCenter | TopRight | Center | BottomLeft | BottomCenter | BottomRight

  function AnchorName(a: Anchor): string
  {
    match a
    case TopLeft => "top-left"
    case TopCenter => "top-center"
    case TopRight => "top-right"
    case Center => "center"
    case BottomLeft => "bottom-left"
    case BottomCenter => "bottom-center"
    case BottomRight => "bottom-right"
  }

  predicate IsAnchorName(s: string)
  {
    exists a: Anchor :: AnchorName(a) == s
  }

  /** The anchor a position option selects; any other string selects bottom-right. */
  function ParseAnchor(s: string): (a: Anchor)
    ensures IsAnchorName(s) ==> AnchorName(a) == s
    ensures !IsAnchorName(s) ==> a == BottomRight
  {
    if s == AnchorName(TopLeft) then TopLeft
    else if s == AnchorName(TopCenter) then TopCenter
    else if s == AnchorName(TopRight) then TopRight
    else if s == AnchorName(Center) then Center
    else if s == AnchorName(BottomLeft) then BottomLeft
    else if s == AnchorName(BottomCenter) then BottomCenter
    else BottomRight
  }

  lemma AnchorNameRoundTrip(a: Anchor)
    ensures ParseAnchor(AnchorName(a)) == a
  {
  }

  /** Where an anchor sits along one axis: against the near edge (top or
      left), in the middle, or against the far edge (bottom or right). */
  datatype Band = Near | Middle | Far

  function VerticalBand(a: Anchor): Band
  {
    match a
    case TopLeft | TopCenter | TopRight => Near
    case Center => Middle
    case BottomLeft | BottomCenter | BottomRight => Far
  }

  function HorizontalBand(a: Anchor): Band
  {
    match a
    case TopLeft | BottomLeft => Near
    case TopCenter | Center | BottomCenter => Middle
    case TopRight | BottomRight => Far
  }

  /** JavaScript's Math.round applied to n / 2 for an integer n: a half
      rounds up, toward positive infinity (Math.round(-2.5) is -2). */
  function HalfRounded(n: int): (r: int)
    ensures n <= 2 * r <= n + 1
  {
    (n + 1) / 2
  }

  /** Reference definition, one axis at a time: the offset along an axis of
      length `outer` of a watermark of length `inner` placed in `band`. */
  function AxisOffset(band: Band, outer: int, inner: int): int
  {
    match band
    case Near => Padding
    case Middle => HalfRounded(outer - inner)
    case Far => outer - inner - Padding
  }

  /** The lookup table calculatePosition builds for one image and watermark. */
  function ImagePositions(imgWidth: int, imgHeight: int, wmWidth: int, wmHeight: int): map<string, Offset>
  {
    map[
      "top-left" := Offset(Padding, Padding),
      "top-center" := Offset(Padding, HalfRounded(imgWidth - wmWidth)),
      "top-right" := Offset(Padding, imgWidth - wmWidth - Padding),
      "center" := Offset(HalfRounded(imgHeight - wmHeight), HalfRounded(imgWidth - wmWidth)),
      "bottom-left" := Offset(imgHeight - wmHeight - Padding, Padding),
      "bottom-center" := Offset(imgHeight - wmHeight - Padding, HalfRounded(imgWidth - wmWidth)),
      "bottom-right" := Offset(imgHeight - wmHeight - Padding, imgWidth - wmWidth - Padding)
    ]
  }

  /** calculatePosition: the table entry for `position`, or the bottom-right
      entry when `position` is not one of the seven keys. Nothing is clamped,
      so a watermark larger than the image gets negative offsets. */
  function CalculatePosition(imgWidth: int, imgHeight: int, wmWidth: int, wmHeight: int, position: string): (r: Offset)
    ensures r.top == AxisOffset(VerticalBand(ParseAnchor(position)), imgHeight, wmHeight)
    ensures r.left == AxisOffset(HorizontalBand(ParseAnchor(position)), imgWidth, wmWidth)
  {
    var positions := ImagePositions(imgWidth, imgHeight, wmWidth, wmHeight);
    if position in positions then positions[position] else positions["bottom-right"]
  }

  lemma TopLeftIgnoresSizes(imgWidth: int, imgHeight: int, wmWidth: int, wmHeight: int)
    ensures CalculatePosition(imgWidth, imgHeight, wmWidth, wmHeight, "top-left") == Offset(Padding, Padding)
  {
    assert ParseAnchor("top-left") == TopLeft;
  }

  /** An unknown position behaves exactly as "bottom-right", unclamped. */
  lemma UnknownPositionIsBottomRight(imgWidth: int, imgHeight: int, wmWidth: int, wmHeight: int, position: string)
    requires !IsAnchorName(position)
    ensures CalculatePosition(imgWidth, imgHeight, wmWidth, wmHeight, position)
         == CalculatePosition(imgWidth, imgHeight, wmWidth, wmHeight, "bottom-right")
    ensures CalculatePosition(imgWidth, imgHeight, wmWidth, wmHeight, position)
         == Offset(imgHeight - wmHeight - Padding, imgWidth - wmWidth - Padding)
  {
    AnchorNameRoundTrip(BottomRight);
  }

  /** The bands read off the anchor names: every "top-…" anchor sits at the
      padding from the top, every "bottom-…" anchor at the padding from the
      bottom, "…-left" at the padding from the left, "…-right" at the padding
      from the right, and "center" and every "…-center" anchor is centred
      horizontally with Math.round. */
  lemma AnchorBands(imgWidth: int, imgHeight: int, wmWidth: int, wmHeight: int, a: Anchor)
    ensures var r := CalculatePosition(imgWidth, imgHeight, wmWidth, wmHeight, AnchorName(a));
      && (StartsWith(AnchorName(a), "top-") ==> r.top == Padding)
      && (StartsWith(AnchorName(a), "bottom-") ==> r.top == imgHeight - wmHeight - Padding)
      && (a == Center ==> r.top == HalfRounded(imgHeight - wmHeight))
      && (EndsWith(AnchorName(a), "-left") ==> r.left == Padding)
      && (EndsWith(AnchorName(a), "-right") ==> r.left == imgWidth - wmWidth - Padding)
      && (EndsWith(AnchorName(a), "center") ==> r.left == HalfRounded(imgWidth - wmWidth))
  {
    AnchorNameRoundTrip(a);
    var name := AnchorName(a);
    match a
    case TopLeft | TopCenter | TopRight =>
      assert name[..7][0] != "bottom-"[0];
    case Center =>
      assert name[..4][0] != "top-"[0];
    case BottomLeft | BottomCenter | BottomRight =>
      assert name[..4][0] != "top-"[0];
  }

  predicate StartsWith(s: string, prefix: string)
  {
    |prefix| <= |s| && s[..|prefix|] == prefix
  }

  predicate EndsWith(s: string, suffix: string)
  {
    |suffix| <= |s| && s[|s| - |suffix|..] == suffix
  }

  /** A centred watermark leaves equal gaps on both sides, or a gap one
      pixel wider on the near side when the slack is odd. */
  lemma CenteredGaps(outer: int, inner: int)
    ensures var near := AxisOffset(Middle, outer, inner);
      var far := outer - inner - near;
      0 <= near - far <= 1
  {
  }

  /** The terms of an overlay expression along one axis: the padding, the
      container size (W or H), the watermark size (w or h), a difference,
      and a halving. */
  datatype Term = Pad | Outer | Inner | Minus(lhs: Term, rhs: Term) | Halved(body: Term)

  /** The overlay term for a band; it mirrors AxisOffset. */
  function AxisTerm(band: Band): Term
  {
    match band
    case Near => Pad
    case Middle => Halved(Minus(Outer, Inner))
    case Far => Minus(Minus(Outer, Inner), Pad)
  }

  /** Renders a term in the transcoder's expression syntax; `outer` and
      `inner` name the container and watermark sizes on that axis. */
  function Render(t: Term, outer: string, inner: string): string
  {
    match t
    case Pad => PaddingText
    case Outer => outer
    case Inner => inner
    case Minus(l, r) => Render(l, outer, inner) + "-" + Render(r, outer, inner)
    case Halved(b) => "(" + Render(b, outer, inner) + ")/2"
  }

  /** The value the transcoder gives a term once the sizes are known. Its
      arithmetic is on reals, so a halving is exact. */
  function Eval(t: Term, outer: int, inner: int): real
  {
    match t
    case Pad => Padding as real
    case Outer => outer as real
    case Inner => inner as real
    case Minus(l, r) => Eval(l, outer, inner) - Eval(r, outer, inner)
    case Halved(b) => Eval(b, outer, inner) / 2.0
  }

  /** The lookup table getVideoPosition builds: "x:y" overlay expressions. */
  function VideoPositions(): map<string, string>
  {
    map[
      "top-left" := "20:20",
      "top-center" := "(W-w)/2:20",
      "top-right" := "W-w-20:20",
      "center" := "(W-w)/2:(H-h)/2",
      "bottom-left" := "20:H-h-20",
      "bottom-center" := "(W-w)/2:H-h-20",
      "bottom-right" := "W-w-20:H-h-20"
    ]
  }

  /** getVideoPosition: the overlay position for `position`, falling back to
      bottom-right. The x expression comes first. The video's width, height
      and the scale are accepted but do not influence the result. */
  function GetVideoPosition(width: int, height: int, position: string, scale: real): (r: string)
    ensures r == OverlayByAxes(ParseAnchor(position))
  {
    var positions := VideoPositions();
    VideoTableByAxes(ParseAnchor(position));
    VideoTableByAxes(BottomRight);
    VideoKeysAreAnchors(position);
    if position in positions then positions[position] else positions["bottom-right"]
  }

  /** The x-axis terms spelled out, over the video width W and the watermark width w. */
  lemma RenderWidthTerm(band: Band)
    ensures Render(AxisTerm(band), "W", "w") ==
      match band case Near => "20" case Middle => "(W-w)/2" case Far => "W-w-20"
  {
    if band != Near {
      assert Render(Minus(Outer, Inner), "W", "w") == "W-w";
    }
  }

  /** The y-axis terms spelled out, over the video height H and the watermark height h. */
  lemma RenderHeightTerm(band: Band)
    ensures Render(AxisTerm(band), "H", "h") ==
      match band case Near => "20" case Middle => "(H-h)/2" case Far => "H-h-20"
  {
    if band != Near {
      assert Render(Minus(Outer, Inner), "H", "h") == "H-h";
    }
  }

  /** The table's keys are exactly the seven anchor names. */
  lemma VideoKeysAreAnchors(position: string)
    ensures position in VideoPositions() <==> IsAnchorName(position)
  {
    if position in VideoPositions() {
      assert position == AnchorName(ParseAnchor(position));
    }
  }

  /** The overlay expression assembled from an anchor's two bands: the x
      term, a colon, then the y term. */
  function OverlayByAxes(a: Anchor): string
  {
    Render(AxisTerm(HorizontalBand(a)), "W", "w") + ":" + Render(AxisTerm(VerticalBand(a)), "H", "h")
  }

  lemma TopRowOverlay(a: Anchor)
    requires VerticalBand(a) == Near
    ensures AnchorName(a) in VideoPositions() && VideoPositions()[AnchorName(a)] == OverlayByAxes(a)
  {
    RenderWidthTerm(HorizontalBand(a));
    RenderHeightTerm(Near);
  }

  lemma MiddleRowOverlay(a: Anchor)
    requires VerticalBand(a) == Middle
    ensures AnchorName(a) in VideoPositions() && VideoPositions()[AnchorName(a)] == OverlayByAxes(a)
  {
    RenderWidthTerm(HorizontalBand(a));
    RenderHeightTerm(Middle);
  }

  lemma BottomRowOverlay(a: Anchor)
    requires VerticalBand(a) == Far
    ensures AnchorName(a) in VideoPositions() && VideoPositions()[AnchorName(a)] == OverlayByAxes(a)
  {
    RenderWidthTerm(HorizontalBand(a));
    RenderHeightTerm(Far);
  }

  /** The table entry of every named anchor is the x term of its horizontal
      band, a colon, and the y term of its vertical band. */
  lemma VideoTableByAxes(a: Anchor)
    ensures AnchorName(a) in VideoPositions() && VideoPositions()[AnchorName(a)] == OverlayByAxes(a)
  {
    match VerticalBand(a) {
      case Near => TopRowOverlay(a);
      case Middle => MiddleRowOverlay(a);
      case Far => BottomRowOverlay(a);
    }
  }

  lemma VideoPositionIgnoresSizes(width1: int, height1: int, scale1: real,
                                  width2: int, height2: int, scale2: real, position: string)
    ensures GetVideoPosition(width1, height1, position, scale1) == GetVideoPosition(width2, height2, position, scale2)
  {
  }

  lemma VideoExamples(width: int, height: int, scale: real, position: string)
    ensures GetVideoPosition(width, height, "top-center", scale) == "(W-w)/2:20"
    ensures !IsAnchorName(position) ==> GetVideoPosition(width, height, position, scale) == "W-w-20:H-h-20"
  {
    RenderWidthTerm(Middle);
    RenderHeightTerm(Near);
    RenderWidthTerm(Far);
    RenderHeightTerm(Far);
  }

  /** Image and video placement agree: along an axis, the video term names
      exactly the image offset at the near and far bands, and lies within
      half a pixel of it in the middle band (the image rounds, the
      transcoder does not). */
  lemma {:induction false} VideoTermMatchesImageOffset(band: Band, outer: int, inner: int)
    ensures band != Middle ==> Eval(AxisTerm(band), outer, inner) == AxisOffset(band, outer, inner) as real
    ensures band == Middle ==>
      0.0 <= AxisOffset(band, outer, inner) as real - Eval(AxisTerm(band), outer, inner) <= 0.5
  {
    assert Eval(Minus(Outer, Inner), outer, inner) == (outer - inner) as real;
    if band == Far {
      assert Eval(AxisTerm(band), outer, inner) == (outer - inner) as real - Padding as real;
    } else if band == Middle {
      var r := HalfRounded(outer - inner);
      assert Eval(AxisTerm(band), outer, inner) == (outer - inner) as real / 2.0;
      assert (outer - inner) as real <= 2.0 * r as real <= (outer - inner) as real + 1.0;
    }
  }
}
