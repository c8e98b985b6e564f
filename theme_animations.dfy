/** The view-transition styles of the theme toggle: for a variant and a start
    position, the animation's name and its stylesheet, or the error
    `generateSVG` throws. */
module ThemeAnimations {
  import opened Wrappers

  datatype Variant =
    | Circle | CircleBlur | Polygon | Gif | SlideHorizontal | SlideVertical
    | FadeBlur | Spiral | Diamond | Wave

  datatype Start = TopLeft | TopRight | BottomLeft | BottomRight | Center | Left | Right | Top | Bottom

  function VariantName(v: Variant): string {
    match v
    case Circle => "circle"
    case CircleBlur => "circle-blur"
    case Polygon => "polygon"
    case Gif => "gif"
    case SlideHorizontal => "slide-horizontal"
    case SlideVertical => "slide-vertical"
    case FadeBlur => "fade-blur"
    case Spiral => "spiral"
    case Diamond => "diamond"
    case Wave => "wave"
  }

  function StartName(s: Start): string {
    match s
    case TopLeft => "top-left"
    case TopRight => "top-right"
    case BottomLeft => "bottom-left"
    case BottomRight => "bottom-right"
    case Center => "center"
    case Left => "left"
    case Right => "right"
    case Top => "top"
    case Bottom => "bottom"
  }

  predicate IsCorner(s: Start) {
    s == TopLeft || s == TopRight || s == BottomLeft || s == BottomRight
  }

  /** The four starts in the middle of an edge. */
  predicate IsEdge(s: Start) {
    s == Left || s == Right || s == Top || s == Bottom
  }

  predicate OnLeftSide(s: Start) {
    s == TopLeft || s == BottomLeft
  }

  predicate OnTopSide(s: Start) {
    s == TopLeft || s == TopRight
  }

  datatype Coords = Coords(cx: string, cy: string)

  /** `getPositionCoords`: the corner in the 40 by 40 view box, undefined
      for every other start. */
  function PositionCoords(s: Start): (r: Option<Coords>)
    ensures r.Some? <==> IsCorner(s)
    ensures r.Some? ==> r.value.cx == (if OnLeftSide(s) then "0" else "40")
    ensures r.Some? ==> r.value.cy == (if OnTopSide(s) then "0" else "40")
  {
    match s
    case TopLeft => Some(Coords("0", "0"))
    case TopRight => Some(Coords("40", "0"))
    case BottomLeft => Some(Coords("0", "40"))
    case BottomRight => Some(Coords("40", "40"))
    case _ => None
  }

  /** The mask image: the data URL of a white circle in the 40 by 40 view
      box, plain or blurred, or the empty string the other variants get. */
  datatype MaskImage = CircleImage(at: Coords, radius: string, blurred: bool) | EmptyImage

  const InvalidStart := "Invalid start position: "

  /** `generateSVG`: undefined for the center, an error for an edge, and for
      a corner the circle of radius 20, the blurred one of radius 18, or "". */
  function GenerateSvg(v: Variant, s: Start): (r: Result<Option<MaskImage>, string>)
    ensures r.Failure? <==> IsEdge(s)
    ensures r.Failure? ==> r.error == InvalidStart + StartName(s)
    ensures r == Success(None) <==> s == Center
    ensures r.Success? && r.value.Some? ==> IsCorner(s)
    ensures r.Success? && r.value.Some? ==>
              r.value.value == (if v == Circle then CircleImage(PositionCoords(s).value, "20", false)
                                else if v == CircleBlur then CircleImage(PositionCoords(s).value, "18", true)
                                else EmptyImage)
  {
    if s == Center then Success(None)
    else match PositionCoords(s)
      case None => Failure(InvalidStart + StartName(s))
      case Some(at) =>
        if v == Circle then Success(Some(CircleImage(at, "20", false)))
        else if v == CircleBlur then Success(Some(CircleImage(at, "18", true)))
        else Success(Some(EmptyImage))
  }

  /** A value interpolated into a template: `undefined` when absent. */
  function Interpolated(o: Option<string>): string {
    match o
    case None => "undefined"
    case Some(t) => t
  }

  /** `getTransformOrigin`: for a corner the same words the mask position
      uses; undefined for every other start. */
  function TransformOrigin(s: Start): (r: Option<string>)
    ensures r.Some? <==> IsCorner(s)
  {
    match s
    case TopLeft => Some("top left")
    case TopRight => Some("top right")
    case BottomLeft => Some("bottom left")
    case BottomRight => Some("bottom right")
    case _ => None
  }

  /** The mask position: the start name with its hyphen, the first and only
      one, replaced by a space. */
  function MaskPositionOf(s: Start): string {
    match s
    case TopLeft => "top left"
    case TopRight => "top right"
    case BottomLeft => "bottom left"
    case BottomRight => "bottom right"
    case _ => StartName(s)
  }

  /** Start names keep their words apart with one hyphen, which the mask
      position turns into a space; for a corner that is also its transform
      origin. */
  lemma MaskPositionWords(s: Start)
    ensures |MaskPositionOf(s)| == |StartName(s)|
    ensures forall i :: 0 <= i < |StartName(s)| ==>
              MaskPositionOf(s)[i] == (if StartName(s)[i] == '-' then ' ' else StartName(s)[i])
    ensures IsCorner(s) ==> TransformOrigin(s) == Some(MaskPositionOf(s))
  {
  }

  /** The stylesheet, by what is interpolated into it. The branches with no
      interpolation are named by their variant. */
  datatype Css =
    | FixedCss(variant: Variant)
    | GifCss(maskUrl: string)
    | SlideCss(vertical: bool, keyframe: string, inFrom: string, outTo: string)
    | MaskCss(image: Option<MaskImage>, position: string, keyframe: string, transformOrigin: string)

  datatype Animation = Animation(name: string, css: Css)

  function Opposite(direction: string): string {
    if direction == "-100%" then "100%" else "-100%"
  }

  /** The part of `createAnimation` after `generateSVG` has returned `svg`. */
  function Styles(v: Variant, s: Start, url: Option<string>, svg: Option<MaskImage>): (r: Animation)
    ensures r.name == VariantName(v) + "-" + StartName(s)
  {
    var name := VariantName(v) + "-" + StartName(s);
    if v == Polygon then Animation(name, FixedCss(Polygon))
    else if v == Circle && s == Center then Animation(name, FixedCss(Circle))
    else if v == Gif then Animation(name, GifCss(Interpolated(url)))
    else if v == SlideHorizontal then
      var direction := if s == Left then "-100%" else "100%";
      Animation(name, SlideCss(false, StartName(s), direction, Opposite(direction)))
    else if v == SlideVertical then
      var direction := if s == Top then "-100%" else "100%";
      Animation(name, SlideCss(true, "vertical-" + StartName(s), direction, Opposite(direction)))
    else if v == FadeBlur || v == Spiral || v == Diamond || v == Wave then Animation(name, FixedCss(v))
    else
      Animation(name, MaskCss(svg, MaskPositionOf(s),
                              StartName(s), Interpolated(TransformOrigin(s))))
  }

  /** `createAnimation` as written: it calls `generateSVG` first, so every
      variant throws for an edge start; otherwise the name is always
      `variant-start`. */
  function CreateAnimation(v: Variant, s: Start, url: Option<string>): (r: Result<Animation, string>)
    ensures r.Failure? <==> IsEdge(s)
    ensures r.Failure? ==> r.error == InvalidStart + StartName(s)
    ensures r.Success? ==> r.value.name == VariantName(v) + "-" + StartName(s)
  {
    match GenerateSvg(v, s)
    case Failure(e) => Failure(e)
    case Success(svg) => Success(Styles(v, s, url, svg))
  }

  /** As written, a slide never starts from the negative side: the only
      starts that would select "-100%" are edges, and those throw. */
  lemma SlidesNeverStartNegative(s: Start, url: Option<string>)
    ensures CreateAnimation(SlideHorizontal, Left, url).Failure?
    ensures CreateAnimation(SlideVertical, Top, url).Failure?
    ensures CreateAnimation(SlideHorizontal, s, url).Success? ==> CreateAnimation(SlideHorizontal, s, url).value.css.inFrom == "100%"
    ensures CreateAnimation(SlideVertical, s, url).Success? ==> CreateAnimation(SlideVertical, s, url).value.css.inFrom == "100%"
  {
  }

  /** The default branch at a corner: the circle image at that corner's
      coordinates, placed at the corner, growing from the same corner. */
  lemma MaskAtCorner(v: Variant, s: Start, url: Option<string>)
    requires v == Circle || v == CircleBlur
    requires IsCorner(s)
    ensures CreateAnimation(v, s, url).Success?
    ensures var c := CreateAnimation(v, s, url).value.css;
      c.MaskCss? && c.image == Some(CircleImage(PositionCoords(s).value, if v == Circle then "20" else "18", v == CircleBlur))
      && c.position == c.transformOrigin == TransformOrigin(s).value
  {
    MaskPositionWords(s);
  }

  /** "circle" from the center never reaches the mask: it takes the
      clip-path branch of its own. */
  lemma CircleCenterIsClipPath(url: Option<string>)
    ensures CreateAnimation(Circle, Center, url).Success?
    ensures CreateAnimation(Circle, Center, url).value.css == FixedCss(Circle)
  {
  }

  /** The blurred circle at the center falls through to the default branch
      with neither an image nor a transform origin: both read `undefined`. */
  lemma BlurredMaskAtCenter(url: Option<string>)
    ensures CreateAnimation(CircleBlur, Center, url).Success?
    ensures var c := CreateAnimation(CircleBlur, Center, url).value.css;
      c.MaskCss? && c.image == None && c.transformOrigin == "undefined" && c.position == "center"
  {
  }

  /** `createAnimation` as evidently intended: only the default branch,
      which is the only one that uses the image, calls `generateSVG`. */
  function CreateAnimationIntended(v: Variant, s: Start, url: Option<string>): (r: Result<Animation, string>)
    ensures r.Success? ==> r.value.name == VariantName(v) + "-" + StartName(s)
  {
    if v == Polygon || (v == Circle && s == Center) || v == Gif || v == SlideHorizontal || v == SlideVertical
       || v == FadeBlur || v == Spiral || v == Diamond || v == Wave
    then Success(Styles(v, s, url, None))
    else CreateAnimation(v, s, url)
  }

  /** With the correction, a slide enters from the negative side exactly when
      it starts on the left (or top), and leaves towards the opposite side. */
  lemma IntendedSlideDirection(s: Start, url: Option<string>)
    ensures CreateAnimationIntended(SlideHorizontal, s, url).Success?
    ensures CreateAnimationIntended(SlideVertical, s, url).Success?
    ensures var c := CreateAnimationIntended(SlideHorizontal, s, url).value.css;
      (c.inFrom == "-100%" <==> s == Left) && c.outTo == Opposite(c.inFrom) && c.inFrom != c.outTo
    ensures var c := CreateAnimationIntended(SlideVertical, s, url).value.css;
      (c.inFrom == "-100%" <==> s == Top) && c.outTo == Opposite(c.inFrom) && c.inFrom != c.outTo
  {
  }

  /** The correction only adds results: wherever the original returns, the
      intended version returns the same, and only the image-based variants
      still throw for an edge start. */
  lemma IntendedExtendsAsWritten(v: Variant, s: Start, url: Option<string>)
    ensures CreateAnimation(v, s, url).Success? ==> CreateAnimationIntended(v, s, url) == CreateAnimation(v, s, url)
    ensures CreateAnimationIntended(v, s, url).Failure? <==> IsEdge(s) && (v == Circle || v == CircleBlur)
  {
  }
}
