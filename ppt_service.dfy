/**
 * The decisions the PowerPoint export (services/pptService.ts) takes before it
 * hands anything to the rendering library: text colours from the YIQ test, the
 * decoration and header a design gets, the split of the team into columns, the
 * layout of each content slide, the order and numbering of the slides, the
 * author and the file name. A slide is described by what is put on it; the
 * library calls and their coordinates are not modelled.
 */
module PptService {
  import opened Common
  import opened Text
  import opened Color
  import opened PptDesigns

  datatype TeamMember = TeamMember(name: string, id: string)

  datatype ChartPoint = ChartPoint(name: string, value: int)

  /** `chartData`: `kind` is the `type` field ('bar', 'pie' or 'line' in practice). */
  datatype ChartData = ChartData(kind: string, title: string, data: seq<ChartPoint>)

  datatype SlideContent = SlideContent(
    title: string, content: seq<string>, imageIndex: Option<int>, chartData: Option<ChartData>)

  datatype PresentationData = PresentationData(
    topic: string, subject: string, college: string,
    drName: Option<string>, department: Option<string>,
    teamMembers: seq<TeamMember>,
    universityLogo: Option<string>, collegeLogo: Option<string>,
    images: seq<string>, design: PptDesign, slides: seq<SlideContent>)

  /** JavaScript truthiness of an optional string: present and non-empty. */
  predicate Truthy(s: Option<string>) {
    s.Some? && s.value != ""
  }

  // ---------------------------------------------------------------------------
  // Colours

  /** A colour as the rendering library takes it: six hex digits, no '#'. */
  predicate IsSixHex(s: string) {
    |s| == 6 && AllHex(s)
  }

  /** Title text on the title slide: white on a dark title background, black otherwise. */
  function MainTextColor(c: PptDesignColors): string {
    if IsDarkColor(c.titleBg) then "FFFFFF" else "000000"
  }

  /** College and supervisor lines on the title slide. */
  function SubTextColor(c: PptDesignColors): string {
    if IsDarkColor(c.titleBg) then "E0E0E0" else "404040"
  }

  /** Team names on the title slide. */
  function MemberTextColor(c: PptDesignColors): string {
    if IsDarkColor(c.titleBg) then "FFFFFF" else Hex(c.textColor)
  }

  /** Bullet text on content slides. */
  function ContentTextColor(c: PptDesignColors): string {
    if IsDarkColor(c.background) then "E0E0E0" else Hex(c.textColor)
  }

  /** Page number and topic in the footer. */
  function FooterTextColor(c: PptDesignColors): string {
    if IsDarkColor(c.background) then "FFFFFF" else "666666"
  }

  /** 'Thank You' on the last slide. */
  function ThankYouColor(c: PptDesignColors): string {
    if IsDarkColor(c.titleBg) then "FFFFFF" else Hex(c.primary)
  }

  /**
   * For '#rrggbb' colours the title text is white exactly when the title
   * background's YIQ brightness is below 128, and the bullet text is the light
   * grey exactly when the slide background's is (every design of the table has
   * such colours, `PptDesigns.TableColorsHex`).
   */
  lemma TextColorsFollowBrightness(c: PptDesignColors)
    requires ColorsAreHex(c)
    ensures MainTextColor(c) == "FFFFFF" <==> Brightness(c.titleBg) < 128000
    ensures SubTextColor(c) == "E0E0E0" <==> Brightness(c.titleBg) < 128000
    ensures Brightness(c.background) < 128000 ==> ContentTextColor(c) == "E0E0E0"
    ensures Brightness(c.background) >= 128000 ==> ContentTextColor(c) == Hex(c.textColor)
    ensures FooterTextColor(c) == "FFFFFF" <==> Brightness(c.background) < 128000
  {
    DarkIffDim(c.titleBg);
    DarkIffDim(c.background);
  }

  /** With '#rrggbb' design colours every text colour handed to the library is six hex digits. */
  lemma TextColorsAreSixHex(c: PptDesignColors)
    requires ColorsAreHex(c)
    ensures IsSixHex(MainTextColor(c)) && IsSixHex(SubTextColor(c)) && IsSixHex(MemberTextColor(c))
    ensures IsSixHex(ContentTextColor(c)) && IsSixHex(FooterTextColor(c)) && IsSixHex(ThankYouColor(c))
  {
    LiteralColorsSixHex();
    HexIsSixHex(c.textColor);
    HexIsSixHex(c.primary);
  }

  lemma HexIsSixHex(color: string)
    requires IsHexColor(color)
    ensures IsSixHex(Hex(color))
  {
    HexOfHexColor(color);
  }

  lemma LiteralColorsSixHex()
    ensures IsSixHex("FFFFFF") && IsSixHex("000000") && IsSixHex("E0E0E0")
    ensures IsSixHex("404040") && IsSixHex("666666")
  {
  }

  // ---------------------------------------------------------------------------
  // Decorations

  datatype ShapeKind = Ellipse | Triangle | Rect | Hexagon

  /** A shape put on a slide, with the colour it is filled with. */
  datatype Shape = Shape(kind: ShapeKind, fill: string)

  /** The branch of `addDecorations` a design falls into. */
  datatype Decoration =
    | CircleDecoration | TriangleDecoration | HexagonDecoration | DiamondDecoration
    | LineDecoration | WaveDecoration | SquareDecoration | OrganicDecoration | NoDecoration

  /** The `if`/`else if` chain of `addDecorations`: the first test that holds wins. */
  function DecorationOf(s: ShapeStyle, l: LayoutStyle): Decoration {
    if s == Circles || s == Dots || l == CircleFlow then CircleDecoration
    else if s == Triangles || l == Geometric then TriangleDecoration
    else if s == Hexagons || s == TechGrid then HexagonDecoration
    else if s == Diamonds then DiamondDecoration
    else if s == Lines || l == Minimal then LineDecoration
    else if s == Waves || l == Wave then WaveDecoration
    else if s == Squares || l == Bold then SquareDecoration
    else if s == OrganicShapes then OrganicDecoration
    else NoDecoration
  }

  /** One rule of the decoration table: the shape and layout styles that select it. */
  datatype Rule = Rule(shapes: set<ShapeStyle>, layouts: set<LayoutStyle>, decoration: Decoration)

  const CIRCLE_RULE := Rule({Circles, Dots}, {CircleFlow}, CircleDecoration)
  const TRIANGLE_RULE := Rule({Triangles}, {Geometric}, TriangleDecoration)
  const HEXAGON_RULE := Rule({Hexagons, TechGrid}, {}, HexagonDecoration)
  const DIAMOND_RULE := Rule({Diamonds}, {}, DiamondDecoration)
  const LINE_RULE := Rule({Lines}, {Minimal}, LineDecoration)
  const WAVE_RULE := Rule({Waves}, {Wave}, WaveDecoration)
  const SQUARE_RULE := Rule({Squares}, {Bold}, SquareDecoration)
  const ORGANIC_RULE := Rule({OrganicShapes}, {}, OrganicDecoration)

  /** The decoration rules in the order they are tried. */
  const DECORATION_RULES: seq<Rule> := [
    CIRCLE_RULE, TRIANGLE_RULE, HEXAGON_RULE, DIAMOND_RULE,
    LINE_RULE, WAVE_RULE, SQUARE_RULE, ORGANIC_RULE
  ]

  /** The decoration of the first rule from index `i` on that selects the styles, or none. */
  function FirstRule(rules: seq<Rule>, i: nat, s: ShapeStyle, l: LayoutStyle): Decoration
    decreases |rules| - i
  {
    if i >= |rules| then NoDecoration
    else if s in rules[i].shapes || l in rules[i].layouts then rules[i].decoration
    else FirstRule(rules, i + 1, s, l)
  }

  /** The branch chain is the rule table read top to bottom. */
  lemma DecorationFollowsRules(s: ShapeStyle, l: LayoutStyle)
    ensures DecorationOf(s, l) == FirstRule(DECORATION_RULES, 0, s, l)
  {
    RulesZeroToTwo(s, l);
    RulesTwoToFour(s, l);
    RulesFourToSix(s, l);
    RulesSixToEight(s, l);
  }

  /** The rule at index i is tried there: it selects its decoration, or the search goes on. */
  lemma RuleAt(i: nat, r: Rule, s: ShapeStyle, l: LayoutStyle)
    requires i < |DECORATION_RULES| && DECORATION_RULES[i] == r
    ensures FirstRule(DECORATION_RULES, i, s, l) ==
      if s in r.shapes || l in r.layouts then r.decoration else FirstRule(DECORATION_RULES, i + 1, s, l)
  {
  }

  lemma RulesZeroToTwo(s: ShapeStyle, l: LayoutStyle)
    ensures FirstRule(DECORATION_RULES, 0, s, l) ==
      if s == Circles || s == Dots || l == CircleFlow then CircleDecoration
      else if s == Triangles || l == Geometric then TriangleDecoration
      else FirstRule(DECORATION_RULES, 2, s, l)
  {
    RuleAt(0, CIRCLE_RULE, s, l);
    RuleAt(1, TRIANGLE_RULE, s, l);
  }

  lemma RulesTwoToFour(s: ShapeStyle, l: LayoutStyle)
    ensures FirstRule(DECORATION_RULES, 2, s, l) ==
      if s == Hexagons || s == TechGrid then HexagonDecoration
      else if s == Diamonds then DiamondDecoration
      else FirstRule(DECORATION_RULES, 4, s, l)
  {
    RuleAt(2, HEXAGON_RULE, s, l);
    RuleAt(3, DIAMOND_RULE, s, l);
  }

  lemma RulesFourToSix(s: ShapeStyle, l: LayoutStyle)
    ensures FirstRule(DECORATION_RULES, 4, s, l) ==
      if s == Lines || l == Minimal then LineDecoration
      else if s == Waves || l == Wave then WaveDecoration
      else FirstRule(DECORATION_RULES, 6, s, l)
  {
    RuleAt(4, LINE_RULE, s, l);
    RuleAt(5, WAVE_RULE, s, l);
  }

  lemma RulesSixToEight(s: ShapeStyle, l: LayoutStyle)
    ensures FirstRule(DECORATION_RULES, 6, s, l) ==
      if s == Squares || l == Bold then SquareDecoration
      else if s == OrganicShapes then OrganicDecoration
      else NoDecoration
  {
    RuleAt(6, SQUARE_RULE, s, l);
    RuleAt(7, ORGANIC_RULE, s, l);
  }

  /** A design gets no decoration exactly when neither its shape nor its layout style has a rule. */
  lemma NoDecorationIff(s: ShapeStyle, l: LayoutStyle)
    ensures DecorationOf(s, l) == NoDecoration <==>
      (s == Mixed || s == NoShapes) && l != CircleFlow && l != Geometric && l != Minimal && l != Wave && l != Bold
  {
  }

  function Repeat(shape: Shape, n: nat): (r: seq<Shape>)
    ensures |r| == n && forall k :: 0 <= k < n ==> r[k] == shape
  {
    if n == 0 then [] else Repeat(shape, n - 1) + [shape]
  }

  /** The shapes `addDecorations` puts on a slide. */
  function DecorationShapes(d: PptDesign): seq<Shape> {
    var c := d.colors;
    match DecorationOf(d.shapeStyle, d.layoutStyle)
    case CircleDecoration =>
      [Shape(Ellipse, Hex(c.secondary)), Shape(Ellipse, Hex(c.accent)), Shape(Ellipse, Hex(c.secondary))]
      + (if d.shapeStyle == Dots then Repeat(Shape(Ellipse, Hex(c.accent)), 5) else [])
    case TriangleDecoration =>
      [Shape(Triangle, Hex(c.secondary)), Shape(Triangle, Hex(c.accent)), Shape(Triangle, Hex(c.primary))]
    case HexagonDecoration =>
      [Shape(Rect, Hex(c.secondary))] + Repeat(Shape(Hexagon, Hex(c.background)), 4)
      + (if d.layoutStyle == Tech then [Shape(Rect, Hex(c.accent))] else [])
    case DiamondDecoration => [Shape(Rect, Hex(c.secondary)), Shape(Rect, Hex(c.accent))]
    case LineDecoration => [Shape(Rect, Hex(c.secondary)), Shape(Rect, Hex(c.secondary))]
    case WaveDecoration => [Shape(Ellipse, Hex(c.secondary)), Shape(Ellipse, Hex(c.accent))]
    case SquareDecoration => [Shape(Rect, Hex(c.primary)), Shape(Rect, Hex(c.accent))]
    case OrganicDecoration => [Shape(Ellipse, Hex(c.secondary)), Shape(Ellipse, Hex(c.primary))]
    case NoDecoration => []
  }

  /**
   * The five small dots are drawn only for the 'dots' shape style: a circle
   * decoration has eight shapes for 'dots' and three otherwise, and no other
   * decoration has more than six.
   */
  lemma DotsOnlyForDots(d: PptDesign)
    ensures |DecorationShapes(d)| == 8 <==> d.shapeStyle == Dots
    ensures DecorationOf(d.shapeStyle, d.layoutStyle) == CircleDecoration && d.shapeStyle != Dots
      ==> |DecorationShapes(d)| == 3
  {
  }

  /** The bottom rule of the hexagon decoration is drawn only for the 'tech' layout. */
  lemma TechLineOnlyForTech(d: PptDesign)
    requires DecorationOf(d.shapeStyle, d.layoutStyle) == HexagonDecoration
    ensures |DecorationShapes(d)| == (if d.layoutStyle == Tech then 6 else 5)
  {
  }

  /** `addDecorations`: the branches, with the loops that place the dots and the hexagons. */
  method AddDecorations(d: PptDesign) returns (shapes: seq<Shape>)
    ensures shapes == DecorationShapes(d)
  {
    var c := d.colors;
    var s, l := d.shapeStyle, d.layoutStyle;
    if s == Circles || s == Dots || l == CircleFlow {
      shapes := [Shape(Ellipse, Hex(c.secondary)), Shape(Ellipse, Hex(c.accent)), Shape(Ellipse, Hex(c.secondary))];
      if s == Dots {
        var i := 0;
        while i < 5
          invariant 0 <= i <= 5
          invariant shapes == [Shape(Ellipse, Hex(c.secondary)), Shape(Ellipse, Hex(c.accent)), Shape(Ellipse, Hex(c.secondary))]
                              + Repeat(Shape(Ellipse, Hex(c.accent)), i)
        {
          shapes := shapes + [Shape(Ellipse, Hex(c.accent))];
          i := i + 1;
        }
      }
    } else if s == Triangles || l == Geometric {
      shapes := [Shape(Triangle, Hex(c.secondary)), Shape(Triangle, Hex(c.accent)), Shape(Triangle, Hex(c.primary))];
    } else if s == Hexagons || s == TechGrid {
      shapes := [Shape(Rect, Hex(c.secondary))];
      var i := 0;
      while i < 4
        invariant 0 <= i <= 4
        invariant shapes == [Shape(Rect, Hex(c.secondary))] + Repeat(Shape(Hexagon, Hex(c.background)), i)
      {
        shapes := shapes + [Shape(Hexagon, Hex(c.background))];
        i := i + 1;
      }
      if l == Tech {
        shapes := shapes + [Shape(Rect, Hex(c.accent))];
      }
    } else if s == Diamonds {
      shapes := [Shape(Rect, Hex(c.secondary)), Shape(Rect, Hex(c.accent))];
    } else if s == Lines || l == Minimal {
      shapes := [Shape(Rect, Hex(c.secondary)), Shape(Rect, Hex(c.secondary))];
    } else if s == Waves || l == Wave {
      shapes := [Shape(Ellipse, Hex(c.secondary)), Shape(Ellipse, Hex(c.accent))];
    } else if s == Squares || l == Bold {
      shapes := [Shape(Rect, Hex(c.primary)), Shape(Rect, Hex(c.accent))];
    } else if s == OrganicShapes {
      shapes := [Shape(Ellipse, Hex(c.secondary)), Shape(Ellipse, Hex(c.primary))];
    } else {
      shapes := [];
    }
  }

  // ---------------------------------------------------------------------------
  // Header

  /** `addHeader`: a title over a rule, a filled bar with a white title, or the accent-bar default. */
  datatype Header = RuledHeader(titleColor: string) | BarHeader(titleColor: string) | AccentHeader(titleColor: string)

  function HeaderOf(d: PptDesign): (h: Header)
    ensures h.BarHeader? <==> d.layoutStyle == Tech
    ensures h.RuledHeader? <==> d.layoutStyle == Minimal
    ensures h.BarHeader? ==> h.titleColor == "FFFFFF"
    ensures !h.BarHeader? ==> h.titleColor == Hex(d.colors.primary)
  {
    if d.layoutStyle == Minimal then RuledHeader(Hex(d.colors.primary))
    else if d.layoutStyle == Tech then BarHeader("FFFFFF")
    else AccentHeader(Hex(d.colors.primary))
  }

  // ---------------------------------------------------------------------------
  // Title slide

  /** `Math.ceil(n / 2)` */
  function HalfUp(n: nat): nat {
    (n + 1) / 2
  }

  function Names(members: seq<TeamMember>): (r: seq<string>)
    ensures |r| == |members| && forall k :: 0 <= k < |members| ==> r[k] == members[k].name
  {
    if |members| == 0 then [] else Names(members[..|members| - 1]) + [members[|members| - 1].name]
  }

  /** The two columns of team members: the first holds ceil(n / 2) of them, the second the rest. */
  function Columns(members: seq<TeamMember>): (r: (seq<TeamMember>, seq<TeamMember>))
    ensures r.0 + r.1 == members
    ensures |r.0| == |r.1| || |r.0| == |r.1| + 1
  {
    var h := HalfUp(|members|);
    assert members[..h] + members[h..] == members;
    (members[..h], members[h..])
  }

  /** The member list of the title slide: two columns when the second is non-empty, else one. */
  datatype TeamBlock = TwoColumns(left: string, right: string) | OneColumn(names: string)

  function TeamBlockOf(members: seq<TeamMember>): TeamBlock {
    var cols := Columns(members);
    if |cols.1| > 0 then TwoColumns(Join(Names(cols.0), '\n'), Join(Names(cols.1), '\n'))
    else OneColumn(Join(Names(members), '\n'))
  }

  /** Two columns are used exactly when there are at least two members. */
  lemma TwoColumnsIff(members: seq<TeamMember>)
    ensures TeamBlockOf(members).TwoColumns? <==> |members| >= 2
  {
    var cols := Columns(members);
    assert |cols.0| + |cols.1| == |members|;
  }

  /** The college line: shown when there is a college or a department. */
  function CollegeLine(college: string, department: Option<string>): (r: Option<string>)
    ensures r.Some? <==> college != "" || Truthy(department)
    ensures r.Some? ==> StartsWith(r.value, college + " ")
    ensures r.Some? && Truthy(department) ==> EndsWith(r.value, " | " + department.value)
    ensures r.Some? && !Truthy(department) ==> r.value == college + " "
  {
    if college != "" || Truthy(department) then
      Some(college + " " + (if Truthy(department) then " | " + department.value else ""))
    else None
  }

  /** The supervisor line: shown when a supervisor is named. */
  function SupervisorLine(drName: Option<string>): (r: Option<string>)
    ensures r.Some? <==> Truthy(drName)
    ensures r.Some? ==> r.value == "Under Supervision of: Dr. " + drName.value
  {
    if Truthy(drName) then Some("Under Supervision of: Dr. " + drName.value) else None
  }

  // ---------------------------------------------------------------------------
  // Content slides

  datatype ChartKind = BarChart | PieChart | LineChart

  /** The chart type: pie for 'pie', line for 'line', bar for anything else. */
  function ChartKindOf(kind: string): ChartKind {
    if kind == "pie" then PieChart else if kind == "line" then LineChart else BarChart
  }

  function ChartKindName(k: ChartKind): string {
    match k
    case BarChart => "bar"
    case PieChart => "pie"
    case LineChart => "line"
  }

  /** Every chart type is read back from its own name, and an unknown name gives a bar chart. */
  lemma ChartKindRoundTrip(k: ChartKind, other: string)
    ensures ChartKindOf(ChartKindName(k)) == k
    ensures other != "pie" && other != "line" ==> ChartKindOf(other) == BarChart
  {
  }

  datatype SlideLayout =
    | TextAndChart(chart: ChartKind)
    | FullChart(chart: ChartKind)
    | SplitImage(image: nat)
    | FullText

  /** `hasImg`: the index is given, within the image list, and that image is a non-empty string. */
  predicate HasImage(sd: SlideContent, images: seq<string>) {
    sd.imageIndex.Some? && 0 <= sd.imageIndex.value < |images| && images[sd.imageIndex.value] != ""
  }

  function LayoutOf(sd: SlideContent, images: seq<string>): SlideLayout {
    if sd.chartData.Some? then
      var k := ChartKindOf(sd.chartData.value.kind);
      if |sd.content| > 0 then TextAndChart(k) else FullChart(k)
    else if HasImage(sd, images) then SplitImage(sd.imageIndex.value)
    else FullText
  }

  /** Chart data wins; then an image that exists; otherwise the text fills the page. */
  lemma LayoutChoice(sd: SlideContent, images: seq<string>)
    ensures LayoutOf(sd, images).TextAndChart? <==> sd.chartData.Some? && |sd.content| > 0
    ensures LayoutOf(sd, images).FullChart? <==> sd.chartData.Some? && |sd.content| == 0
    ensures LayoutOf(sd, images).SplitImage? <==> sd.chartData.None? && HasImage(sd, images)
    ensures LayoutOf(sd, images).FullText? <==> sd.chartData.None? && !HasImage(sd, images)
    ensures LayoutOf(sd, images).SplitImage? ==>
      LayoutOf(sd, images).image < |images| && images[LayoutOf(sd, images).image] != ""
  {
  }

  // ---------------------------------------------------------------------------
  // The deck

  datatype PlannedSlide =
    | TitleSlide(
        decorations: seq<Shape>, universityLogo: bool, collegeLogo: bool,
        topic: string, subject: string, collegeLine: Option<string>,
        team: TeamBlock, supervisor: Option<string>, textColor: string)
    | ContentSlide(
        decorations: seq<Shape>, header: Header, title: string, layout: SlideLayout,
        bullets: seq<string>, number: nat, footer: string)
    | ThankYouSlide(decorations: seq<Shape>, color: string)

  function TitleSlideOf(data: PresentationData): PlannedSlide {
    TitleSlide(
      DecorationShapes(data.design), Truthy(data.universityLogo), Truthy(data.collegeLogo),
      data.topic, data.subject, CollegeLine(data.college, data.department),
      TeamBlockOf(data.teamMembers), SupervisorLine(data.drName), MainTextColor(data.design.colors))
  }

  /** Content slide i, numbered i + 1 in its footer. */
  function ContentSlideOf(data: PresentationData, i: nat): (r: PlannedSlide)
    requires i < |data.slides|
    ensures SlideFor(r, data.slides[i], i + 1)
  {
    var sd := data.slides[i];
    ContentSlide(
      DecorationShapes(data.design), HeaderOf(data.design), sd.title,
      LayoutOf(sd, data.images), sd.content, i + 1, data.topic)
  }

  /** A content slide that shows the title and bullets of `sd` as page `number`. */
  predicate SlideFor(s: PlannedSlide, sd: SlideContent, number: nat) {
    s.ContentSlide? && s.number == number && s.title == sd.title && s.bullets == sd.content
  }

  function ContentSlides(data: PresentationData, n: nat): (r: seq<PlannedSlide>)
    requires n <= |data.slides|
    ensures |r| == n && forall i :: 0 <= i < n ==> r[i] == ContentSlideOf(data, i)
  {
    if n == 0 then [] else ContentSlides(data, n - 1) + [ContentSlideOf(data, n - 1)]
  }

  function ThankYouSlideOf(data: PresentationData): PlannedSlide {
    ThankYouSlide(DecorationShapes(data.design), ThankYouColor(data.design.colors))
  }

  function DeckPlan(data: PresentationData): seq<PlannedSlide> {
    [TitleSlideOf(data)] + ContentSlides(data, |data.slides|) + [ThankYouSlideOf(data)]
  }

  /**
   * A deck for `slides`: the title slide, one content slide per input slide
   * in input order, carrying its title, its bullets and the page number
   * i + 1, and the thank-you slide.
   */
  predicate DeckFramed(deck: seq<PlannedSlide>, slides: seq<SlideContent>) {
    |deck| == |slides| + 2
    && deck[0].TitleSlide? && deck[|slides| + 1].ThankYouSlide?
    && forall i :: 0 <= i < |slides| ==> SlideFor(deck[i + 1], slides[i], i + 1)
  }

  /** The deck `generatePresentation` builds has that shape. */
  lemma DeckShape(data: PresentationData)
    ensures DeckFramed(DeckPlan(data), data.slides)
  {
    FramedDeck(TitleSlideOf(data), data, ThankYouSlideOf(data));
  }

  /** Any title slide and thank-you slide around the content slides make such a deck. */
  lemma FramedDeck(title: PlannedSlide, data: PresentationData, thanks: PlannedSlide)
    requires title.TitleSlide? && thanks.ThankYouSlide?
    ensures DeckFramed([title] + ContentSlides(data, |data.slides|) + [thanks], data.slides)
  {
    Framed(title, ContentSlides(data, |data.slides|), thanks);
  }

  /** The deck so far grows by the next content slide. */
  lemma DeckStep(data: PresentationData, i: nat, title: PlannedSlide)
    requires i < |data.slides|
    ensures [title] + ContentSlides(data, i) + [ContentSlideOf(data, i)] == [title] + ContentSlides(data, i + 1)
  {
    assert ContentSlides(data, i + 1) == ContentSlides(data, i) + [ContentSlideOf(data, i)];
  }

  /** Positions in a sequence with one element before and one after a body. */
  lemma Framed<T>(first: T, body: seq<T>, last: T)
    ensures |[first] + body + [last]| == |body| + 2
    ensures ([first] + body + [last])[0] == first && ([first] + body + [last])[|body| + 1] == last
    ensures forall i :: 0 <= i < |body| ==> ([first] + body + [last])[i + 1] == body[i]
  {
  }

  // ---------------------------------------------------------------------------
  // Metadata and file name

  /** `data.teamMembers[0]?.name || 'Student'` */
  function Author(members: seq<TeamMember>): (r: string)
    ensures |members| > 0 && members[0].name != "" ==> r == members[0].name
    ensures (|members| == 0 || members[0].name == "") ==> r == "Student"
  {
    if |members| > 0 && members[0].name != "" then members[0].name else "Student"
  }

  datatype Metadata = Metadata(author: string, title: string, subject: string, company: string)

  /** The characters the file name keeps: ASCII letters and digits, the space, and the Arabic block. */
  predicate SafeChar(c: char) {
    ('a' <= c <= 'z') || ('A' <= c <= 'Z') || ('0' <= c <= '9') || c == ' '
    || ('\U{0600}' <= c <= '\U{06FF}')
  }

  predicate AllSafe(s: string) {
    forall k :: 0 <= k < |s| ==> SafeChar(s[k])
  }

  /** `replace(/[^a-zA-Z0-9 ؀-ۿ]/g, '')` */
  function KeepSafe(s: string): (r: string)
    ensures |r| <= |s| && AllSafe(r)
  {
    if |s| == 0 then ""
    else (if SafeChar(s[0]) then [s[0]] else []) + KeepSafe(s[1..])
  }

  /** Text made only of kept characters passes through unchanged. */
  lemma {:induction false} KeepSafeOfSafe(s: string)
    requires AllSafe(s)
    ensures KeepSafe(s) == s
  {
    if |s| > 0 {
      KeepSafeOfSafe(s[1..]);
      assert [s[0]] + s[1..] == s;
    }
  }

  /** One character is kept exactly when it is safe. */
  lemma KeepSafeOfChar(c: char)
    ensures KeepSafe([c]) == if SafeChar(c) then [c] else []
  {
    assert [c][1..] == [];
  }

  /** The filter works character by character: filtering a concatenation filters each part, in order. */
  lemma {:induction false} KeepSafeConcat(a: string, b: string)
    ensures KeepSafe(a + b) == KeepSafe(a) + KeepSafe(b)
  {
    if |a| > 0 {
      assert (a + b)[0] == a[0] && (a + b)[1..] == a[1..] + b;
      KeepSafeConcat(a[1..], b);
    } else {
      assert a + b == b;
    }
  }

  /** Every unsafe character is removed and every safe one kept as often as it occurs. */
  lemma {:induction false} KeepSafeCounts(s: string)
    ensures forall c :: multiset(KeepSafe(s))[c] == if SafeChar(c) then multiset(s)[c] else 0
  {
    if |s| > 0 {
      KeepSafeCounts(s[1..]);
      assert s == [s[0]] + s[1..];
      var head: string := if SafeChar(s[0]) then [s[0]] else [];
      assert KeepSafe(s) == head + KeepSafe(s[1..]);
      assert multiset(KeepSafe(s)) == multiset(head) + multiset(KeepSafe(s[1..]));
      assert multiset(s) == multiset([s[0]]) + multiset(s[1..]);
    }
  }

  /** Filtering twice is filtering once. */
  lemma KeepSafeIdempotent(s: string)
    ensures KeepSafe(KeepSafe(s)) == KeepSafe(s)
  {
    KeepSafeOfSafe(KeepSafe(s));
  }

  /** The kept characters, trimmed and cut to 30, or 'Presentation' when nothing is left. */
  function SafeName(topic: string): (r: string)
    ensures 0 < |r| <= 30 && AllSafe(r)
  {
    var t := Trim(KeepSafe(topic));
    TrimChars(KeepSafe(topic));
    var cut := t[..Min(30, |t|)];
    assert forall k :: 0 <= k < |cut| ==> cut[k] == t[k];
    if cut == "" then "Presentation" else cut
  }

  /** The name falls back to 'Presentation' exactly when the kept, trimmed topic is empty. */
  lemma SafeNameFallback(topic: string)
    ensures var t := Trim(KeepSafe(topic));
      (|t| == 0 ==> SafeName(topic) == "Presentation")
      && (|t| > 0 ==> SafeName(topic) == t[..Min(30, |t|)])
  {
  }

  function FileName(topic: string): (r: string)
    ensures EndsWith(r, ".pptx") && |r| <= 35
  {
    SafeName(topic) + ".pptx"
  }

  /**
   * `generatePresentation`: the metadata, then the title slide, one content
   * slide per input slide (the loop), the thank-you slide, and the file name.
   */
  method GeneratePresentation(data: PresentationData)
    returns (meta: Metadata, deck: seq<PlannedSlide>, fileName: string)
    ensures meta == Metadata(Author(data.teamMembers), data.topic, data.subject, data.college)
    ensures deck == DeckPlan(data)
    ensures fileName == FileName(data.topic)
  {
    meta := Metadata(Author(data.teamMembers), data.topic, data.subject, data.college);
    var c := data.design.colors;
    var titleShapes := AddDecorations(data.design);
    deck := [TitleSlide(
      titleShapes, Truthy(data.universityLogo), Truthy(data.collegeLogo),
      data.topic, data.subject, CollegeLine(data.college, data.department),
      TeamBlockOf(data.teamMembers), SupervisorLine(data.drName), MainTextColor(c))];
    var i := 0;
    while i < |data.slides|
      invariant 0 <= i <= |data.slides|
      invariant deck == [TitleSlideOf(data)] + ContentSlides(data, i)
    {
      var sd := data.slides[i];
      var shapes := AddDecorations(data.design);
      var header := HeaderOf(data.design);
      var layout := LayoutOf(sd, data.images);
      var slide := ContentSlide(shapes, header, sd.title, layout, sd.content, i + 1, data.topic);
      assert slide == ContentSlideOf(data, i);
      DeckStep(data, i, TitleSlideOf(data));
      deck := deck + [slide];
      i := i + 1;
    }
    var tyShapes := AddDecorations(data.design);
    var last := ThankYouSlide(tyShapes, ThankYouColor(c));
    assert last == ThankYouSlideOf(data);
    deck := deck + [last];
    fileName := SafeName(data.topic) + ".pptx";
  }
}
