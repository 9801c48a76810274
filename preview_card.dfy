/**
 * The hover card that previews a slide design (components/DesignPreviewCard.tsx):
 * which decorative marks it draws for a design's shape style, and the colours
 * of its title, subtitle and name badge. Sizes, positions and opacity are not
 * modelled; a mark is its kind and the colour it is painted with.
 */
module PreviewCard {
  import opened Color
  import opened PptDesigns
  import opened PptService

  datatype MarkKind = Blob | Dot | Wedge | Strip | Marker | BottomLine | Diamond | Line | WaveBand | Block

  datatype Mark = Mark(kind: MarkKind, color: string)

  /** The branch of `renderShapes`: unlike the slide export it looks at the shape style only. */
  function PreviewDecoration(s: ShapeStyle): Decoration {
    match s
    case Circles => CircleDecoration
    case Dots => CircleDecoration
    case Triangles => TriangleDecoration
    case Hexagons => HexagonDecoration
    case TechGrid => HexagonDecoration
    case Diamonds => DiamondDecoration
    case Lines => LineDecoration
    case Waves => WaveDecoration
    case Squares => SquareDecoration
    case OrganicShapes => OrganicDecoration
    case Mixed => NoDecoration
    case NoShapes => NoDecoration
  }

  /**
   * The card picks the decoration the slide export picks for a layout that has
   * no decoration of its own ('classic'): the two agree on every shape style.
   */
  lemma PreviewAgreesWithExport(s: ShapeStyle)
    ensures PreviewDecoration(s) == DecorationOf(s, Classic)
  {
  }

  function Marks(kind: MarkKind, color: string, n: nat): (r: seq<Mark>)
    ensures |r| == n && forall k :: 0 <= k < n ==> r[k] == Mark(kind, color)
  {
    if n == 0 then [] else Marks(kind, color, n - 1) + [Mark(kind, color)]
  }

  /** The marks `renderShapes` draws for a design. */
  function PreviewMarks(d: PptDesign): seq<Mark> {
    var c := d.colors;
    match PreviewDecoration(d.shapeStyle)
    case CircleDecoration =>
      [Mark(Blob, c.secondary), Mark(Blob, c.accent)]
      + (if d.shapeStyle == Dots then Marks(Dot, c.accent, 4) else [])
    case TriangleDecoration => [Mark(Wedge, c.secondary), Mark(Wedge, c.primary)]
    case HexagonDecoration =>
      [Mark(Strip, c.secondary)] + Marks(Marker, c.background, 3)
      + (if d.layoutStyle == Tech then [Mark(BottomLine, c.accent)] else [])
    case DiamondDecoration => [Mark(Diamond, c.secondary), Mark(Diamond, c.accent)]
    case LineDecoration => [Mark(Line, c.secondary), Mark(Line, c.secondary)]
    case WaveDecoration => [Mark(WaveBand, c.secondary), Mark(WaveBand, c.accent)]
    case SquareDecoration => [Mark(Block, c.primary), Mark(Block, c.accent)]
    case OrganicDecoration => [Mark(Blob, c.secondary), Mark(Blob, c.primary)]
    case NoDecoration => []
  }

  /**
   * 'circles' and 'dots' draw the same two blobs in the same colours; 'dots'
   * adds exactly four accent dots after them.
   */
  lemma CirclesAndDotsShareBlobs(d: PptDesign, e: PptDesign)
    requires d.shapeStyle == Circles && e.shapeStyle == Dots && d.colors == e.colors
    ensures |PreviewMarks(d)| == 2
    ensures PreviewMarks(e)[..2] == PreviewMarks(d)
    ensures PreviewMarks(e)[2..] == Marks(Dot, d.colors.accent, 4)
  {
  }

  /**
   * 'hexagons' and 'tech_grid' draw a strip and three markers; the bottom line
   * is added only for the 'tech' layout.
   */
  lemma HexagonMarks(d: PptDesign)
    requires d.shapeStyle == Hexagons || d.shapeStyle == TechGrid
    ensures PreviewMarks(d)[..4] == [Mark(Strip, d.colors.secondary)] + Marks(Marker, d.colors.background, 3)
    ensures |PreviewMarks(d)| == 5 <==> d.layoutStyle == Tech
    ensures |PreviewMarks(d)| == 4 <==> d.layoutStyle != Tech
  {
  }

  /** The card draws nothing exactly for 'mixed' and 'none'. */
  lemma NoMarksIff(d: PptDesign)
    ensures PreviewMarks(d) == [] <==> d.shapeStyle == Mixed || d.shapeStyle == NoShapes
  {
  }

  /** Title: white on a dark title background, else the design's text colour. */
  function PreviewTitleColor(c: PptDesignColors): string {
    if IsDarkColor(c.titleBg) then "#FFFFFF" else c.textColor
  }

  /** Subtitle: light grey on a dark title background, else the design's subtitle colour. */
  function PreviewSubtitleColor(c: PptDesignColors): string {
    if IsDarkColor(c.titleBg) then "#E0E0E0" else c.subtitleColor
  }

  /** Name badge text: white on a dark accent, black otherwise. */
  function BadgeTextColor(c: PptDesignColors): string {
    if IsDarkColor(c.accent) then "#FFFFFF" else "#000000"
  }

  /**
   * The card's title colour is, without its '#', the colour the exported title
   * slide gives the team names, for any colours at all.
   */
  lemma PreviewTitleMatchesSlide(c: PptDesignColors)
    ensures Hex(PreviewTitleColor(c)) == MemberTextColor(c)
  {
    HexOfPrefixed("FFFFFF");
  }

  /**
   * On a dark title background the card's subtitle is, without its '#', the
   * export's subtitle colour.
   */
  lemma PreviewSubtitleOnDark(c: PptDesignColors)
    requires IsDarkColor(c.titleBg)
    ensures Hex(PreviewSubtitleColor(c)) == SubTextColor(c)
  {
    HexOfPrefixed("E0E0E0");
  }

  /** For '#rrggbb' colours the card's text choices follow the YIQ brightness below 128. */
  lemma PreviewColorsFollowBrightness(c: PptDesignColors)
    requires ColorsAreHex(c)
    ensures BadgeTextColor(c) == "#FFFFFF" <==> Brightness(c.accent) < 128000
    ensures Brightness(c.titleBg) < 128000 ==> PreviewTitleColor(c) == "#FFFFFF" && PreviewSubtitleColor(c) == "#E0E0E0"
    ensures Brightness(c.titleBg) >= 128000 ==>
      PreviewTitleColor(c) == c.textColor && PreviewSubtitleColor(c) == c.subtitleColor
  {
    DarkIffDim(c.accent);
    DarkIffDim(c.titleBg);
  }
}
