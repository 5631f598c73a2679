/** The style dispatch of app.py: the `style` query parameter picks how the
    modules are drawn and coloured (lines 88-137) and, separately, which
    border is drawn around the symbol (lines 167-188). Both dispatches
    compare the raw tag against string literals; any other tag, including
    the default `basic`, takes the final `else`. */
module Style {
  import opened HexColor

  /** The module drawers the styled image factory is given. */
  datatype ModuleDrawer = RoundedModules | CircleModules | SquareModules

  /** The colour masks, with the colours passed to their constructors. */
  datatype ColorMask =
    | SolidFill(front: Rgb, back: Rgb)
    | HorizontalGradient(back: Rgb, center: Rgb)
    | VerticalGradient(back: Rgb, center: Rgb)
    | RadialGradient(back: Rgb, center: Rgb)
  {
    predicate IsGradient() {
      !SolidFill?
    }
  }

  /** How `make_image` is called: the plain image with a fill and background
      colour, or the styled image factory with a drawer and a mask. */
  datatype ImageRecipe =
    | PlainImage(fill: Rgb, back: Rgb)
    | StyledImage(drawer: ModuleDrawer, mask: ColorMask)

  /** The three border kinds of `add_decorative_border`. */
  datatype BorderKind = GradientBorder | PatternBorder | SolidBorder

  /** The chain of lines 88-137. */
  function ImageFor(style: string, front: Rgb, back: Rgb): ImageRecipe {
    if style == "rounded" then StyledImage(RoundedModules, SolidFill(front, back))
    else if style == "circles" then StyledImage(CircleModules, SolidFill(front, back))
    else if style == "gradient" then StyledImage(SquareModules, HorizontalGradient(back, front))
    else if style == "gradient_vertical" then StyledImage(SquareModules, VerticalGradient(back, front))
    else if style == "gradient_radial" then StyledImage(SquareModules, RadialGradient(back, front))
    else PlainImage(front, back)
  }

  /** The chain of lines 167-188. */
  function BorderKindFor(style: string): BorderKind {
    if style in ["gradient", "gradient_vertical", "gradient_radial"] then GradientBorder
    else if style in ["rounded", "circles"] then PatternBorder
    else SolidBorder
  }

  // ---------------------------------------------------------------------
  // Reference definition: the six documented styles

  datatype StyleTag = Basic | Rounded | Circles | Gradient | GradientVertical | GradientRadial

  function TagName(t: StyleTag): string {
    match t
    case Basic => "basic"
    case Rounded => "rounded"
    case Circles => "circles"
    case Gradient => "gradient"
    case GradientVertical => "gradient_vertical"
    case GradientRadial => "gradient_radial"
  }

  /** The six documented styles. */
  const AllTags: seq<StyleTag> := [Basic, Rounded, Circles, Gradient, GradientVertical, GradientRadial]

  /** The first of `tags` whose name is `style`, or basic when none is. */
  function FirstNamed(style: string, tags: seq<StyleTag>): StyleTag {
    if tags == [] then Basic
    else if TagName(tags[0]) == style then tags[0]
    else FirstNamed(style, tags[1..])
  }

  /** The documented style a tag names; every other tag is basic. */
  function Classify(style: string): StyleTag {
    FirstNamed(style, AllTags)
  }

  // ---------------------------------------------------------------------
  // Properties

  /** Classification tries the documented names in order. */
  lemma ClassifyInOrder(style: string)
    ensures Classify(style) ==
              if style == TagName(Basic) then Basic
              else if style == TagName(Rounded) then Rounded
              else if style == TagName(Circles) then Circles
              else if style == TagName(Gradient) then Gradient
              else if style == TagName(GradientVertical) then GradientVertical
              else if style == TagName(GradientRadial) then GradientRadial
              else Basic
  {
    var t0 := AllTags;
    NextTag(style, t0);
    var t1 := t0[1..];
    NextTag(style, t1);
    var t2 := t1[1..];
    NextTag(style, t2);
    var t3 := t2[1..];
    NextTag(style, t3);
    var t4 := t3[1..];
    NextTag(style, t4);
    var t5 := t4[1..];
    NextTag(style, t5);
    assert t5[1..] == [];
  }

  lemma NextTag(style: string, tags: seq<StyleTag>)
    requires tags != []
    ensures FirstNamed(style, tags) == if TagName(tags[0]) == style then tags[0] else FirstNamed(style, tags[1..])
  {
  }

  /** Each documented style's name is read back as that style, and a tag
      that names none of them is read as basic. */
  lemma ClassifyTagName(t: StyleTag, style: string)
    ensures Classify(TagName(t)) == t
    ensures (forall u :: TagName(u) != style) ==> Classify(style) == Basic
  {
    ClassifyInOrder(style);
    ClassifyInOrder(TagName(t));
  }

  /** Both dispatches see only the documented style a tag names: an
      unknown or absent tag draws exactly what `basic` draws. */
  lemma OnlyTheStyleMatters(style: string, front: Rgb, back: Rgb)
    ensures ImageFor(style, front, back) == ImageFor(TagName(Classify(style)), front, back)
    ensures BorderKindFor(style) == BorderKindFor(TagName(Classify(style)))
  {
    ClassifyInOrder(style);
  }

  /** The six documented styles select six different images, whatever the
      colours. */
  lemma DistinctImages(t: StyleTag, u: StyleTag, front: Rgb, back: Rgb)
    requires t != u
    ensures ImageFor(TagName(t), front, back) != ImageFor(TagName(u), front, back)
  {
  }

  /** The border follows the image: a gradient border exactly when the
      modules get a gradient mask, the patterned border exactly when they
      get a solid-fill mask (rounded and circles), the solid border exactly
      for the plain image. */
  lemma BorderFollowsImage(style: string, front: Rgb, back: Rgb)
    ensures var image := ImageFor(style, front, back);
            (BorderKindFor(style) == GradientBorder <==> image.StyledImage? && image.mask.IsGradient()) &&
            (BorderKindFor(style) == PatternBorder <==> image.StyledImage? && !image.mask.IsGradient()) &&
            (BorderKindFor(style) == SolidBorder <==> image.PlainImage?)
  {
  }

  /** The front colour is what the modules are drawn in (the fill, the
      solid front or the gradient centre) and the back colour the
      background, for every style. */
  lemma ColoursPassedThrough(style: string, front: Rgb, back: Rgb)
    ensures match ImageFor(style, front, back)
            case PlainImage(fill, bg) => fill == front && bg == back
            case StyledImage(_, mask) =>
              mask.back == back &&
              (if mask.SolidFill? then mask.front == front else mask.center == front)
  {
  }
}
