/**
 * The PowerPoint design catalogue (services/pptDesigns.ts): a constant table
 * of 33 designs, each with an id, an English and an Arabic name, a category,
 * seven colours and a layout and shape style, with `getDesignById` (`find`),
 * `getDesignsByCategory` (`filter`) and the list of categories. The table is
 * written in the four sections the source groups it in; the table is their
 * concatenation.
 */
module PptDesigns {
  import opened Common
  import Color

  datatype PptDesignColors = PptDesignColors(
    primary: string, secondary: string, accent: string, background: string,
    titleBg: string, textColor: string, subtitleColor: string)

  datatype LayoutStyle =
    | Geometric | Wave | Minimal | Bold | Elegant | Tech | Creative
    | Classic | Modern | Abstract | Grid | CircleFlow | Diagonal | Organic

  datatype ShapeStyle =
    | Circles | Triangles | Hexagons | Diamonds | Lines | Dots | Waves
    | Squares | Mixed | NoShapes | OrganicShapes | TechGrid

  /** A design; the SVG icon path of the source is not part of the model. */
  datatype PptDesign = PptDesign(
    id: string, name: string, nameAr: string, category: string,
    colors: PptDesignColors, layoutStyle: LayoutStyle, shapeStyle: ShapeStyle)

  // ---------------------------------------------------------------------------
  // The table

  const CYBER_NEON := PptDesign("cyber-neon", "Cyber Neon", "السايبر المتوهج", "Tech",
    PptDesignColors("#0a0a1a", "#00f0ff", "#ff00ff", "#0f0f23", "#0a0a1a", "#e2e8f0", "#00f0ff"),
    Tech, Lines)
  const MARKETING := PptDesign("marketing", "Marketing", "التسويق", "Professional",
    PptDesignColors("#be123c", "#e11d48", "#fb7185", "#fff1f2", "#be123c", "#9f1239", "#e11d48"),
    Bold, Circles)
  const HR := PptDesign("hr", "HR Solutions", "الموارد البشرية", "Professional",
    PptDesignColors("#0e7490", "#06b6d4", "#22d3ee", "#ecfeff", "#0e7490", "#155e75", "#0891b2"),
    Modern, Waves)
  const UNIVERSITY := PptDesign("university", "University", "الجامعي", "Academic",
    PptDesignColors("#1e3a5f", "#8b7355", "#c9a227", "#fffef7", "#1e3a5f", "#1e3a5f", "#8b7355"),
    Classic, Lines)
  const SCIENCE_LAB := PptDesign("science-lab", "Science Lab", "المختبر", "Academic",
    PptDesignColors("#2563eb", "#10b981", "#06b6d4", "#f8fafc", "#1e40af", "#1e3a8a", "#64748b"),
    Modern, Hexagons)
  const MEDICAL := PptDesign("medical", "Medical", "الطبي", "Academic",
    PptDesignColors("#0284c7", "#0891b2", "#22d3ee", "#ffffff", "#0c4a6e", "#0c4a6e", "#67e8f9"),
    Minimal, Circles)
  const ENGINEERING := PptDesign("engineering", "Engineering", "الهندسي", "Academic",
    PptDesignColors("#1e3a5f", "#ea580c", "#fb923c", "#fff7ed", "#1e3a5f", "#1c1917", "#9a3412"),
    Geometric, Triangles)
  const ARTS := PptDesign("arts", "Arts", "الفنون", "Academic",
    PptDesignColors("#831843", "#c026d3", "#e879f9", "#fdf4ff", "#701a75", "#4a044e", "#a855f7"),
    Creative, Waves)
  const LITERATURE := PptDesign("literature", "Literature", "الأدب", "Academic",
    PptDesignColors("#1c1917", "#78716c", "#a8a29e", "#fafaf9", "#292524", "#292524", "#78716c"),
    Elegant, NoShapes)
  const HISTORY := PptDesign("history", "History", "التاريخ", "Academic",
    PptDesignColors("#451a03", "#92400e", "#d97706", "#fffbeb", "#451a03", "#78350f", "#b45309"),
    Classic, Lines)
  const PSYCHOLOGY := PptDesign("psychology", "Psychology", "علم النفس", "Academic",
    PptDesignColors("#4c1d95", "#7c3aed", "#a78bfa", "#f5f3ff", "#4c1d95", "#5b21b6", "#7c3aed"),
    Abstract, Circles)
  const BIOLOGY := PptDesign("biology", "Biology", "الأحياء", "Academic",
    PptDesignColors("#14532d", "#15803d", "#4ade80", "#f0fdf4", "#14532d", "#166534", "#22c55e"),
    Modern, Hexagons)
  const CHEMISTRY := PptDesign("chemistry", "Chemistry", "الكيمياء", "Academic",
    PptDesignColors("#0369a1", "#0284c7", "#38bdf8", "#f0f9ff", "#0c4a6e", "#0c4a6e", "#0ea5e9"),
    Geometric, Hexagons)
  const BLACK_GOLD := PptDesign("black-gold", "Black Gold", "الأسود الذهبي", "Luxury",
    PptDesignColors("#0a0a0a", "#d4af37", "#ffd700", "#0a0a0a", "#0a0a0a", "#f5f5f5", "#d4af37"),
    Elegant, Diamonds)
  const ROSE_GOLD := PptDesign("rose-gold", "Rose Gold", "الذهبي الوردي", "Luxury",
    PptDesignColors("#831843", "#fda4af", "#fecdd3", "#fff1f2", "#9f1239", "#4c0519", "#be123c"),
    Elegant, Circles)
  const ROYAL_BLUE := PptDesign("royal-blue", "Royal Blue", "الأزرق الملكي", "Luxury",
    PptDesignColors("#1e3a8a", "#c9a227", "#fbbf24", "#fefce8", "#1e3a8a", "#1e3a8a", "#b45309"),
    Classic, Lines)
  const DIAMOND := PptDesign("diamond", "Diamond", "الماسي", "Luxury",
    PptDesignColors("#374151", "#9ca3af", "#e5e7eb", "#f9fafb", "#1f2937", "#111827", "#6b7280"),
    Elegant, Diamonds)
  const BURGUNDY := PptDesign("burgundy", "Burgundy", "العنابي", "Luxury",
    PptDesignColors("#722f37", "#9a3b3b", "#d4a574", "#faf5f0", "#4a1c23", "#2d1f1f", "#9a3b3b"),
    Elegant, Lines)
  const EMERALD := PptDesign("emerald", "Emerald", "الزمردي", "Luxury",
    PptDesignColors("#064e3b", "#10b981", "#34d399", "#ecfdf5", "#064e3b", "#065f46", "#10b981"),
    Elegant, Diamonds)
  const SAPPHIRE := PptDesign("sapphire", "Sapphire", "الياقوتي", "Luxury",
    PptDesignColors("#1e3a8a", "#3b82f6", "#60a5fa", "#eff6ff", "#1e3a8a", "#1e40af", "#2563eb"),
    Elegant, Diamonds)
  const AMETHYST := PptDesign("amethyst", "Amethyst", "الجمشتي", "Luxury",
    PptDesignColors("#581c87", "#a855f7", "#c084fc", "#faf5ff", "#581c87", "#6b21a8", "#9333ea"),
    Elegant, Diamonds)
  const PEARL := PptDesign("pearl", "Pearl", "اللؤلؤي", "Luxury",
    PptDesignColors("#44403c", "#a8a29e", "#d6d3d1", "#fafaf9", "#292524", "#1c1917", "#78716c"),
    Minimal, Circles)
  const OBSIDIAN := PptDesign("obsidian", "Obsidian", "السبج", "Luxury",
    PptDesignColors("#0a0a0a", "#1f2937", "#374151", "#111827", "#0a0a0a", "#f3f4f6", "#9ca3af"),
    Bold, Triangles)
  const OCEAN_WAVE := PptDesign("ocean-wave", "Ocean Wave", "موج المحيط", "Creative",
    PptDesignColors("#0c4a6e", "#0ea5e9", "#38bdf8", "#f0f9ff", "#0369a1", "#0c4a6e", "#0284c7"),
    Wave, Waves)
  const SUNSET := PptDesign("sunset", "Sunset", "الغروب", "Creative",
    PptDesignColors("#7c2d12", "#ea580c", "#fb923c", "#fff7ed", "#7c2d12", "#7c2d12", "#c2410c"),
    Wave, Waves)
  const AURORA := PptDesign("aurora", "Aurora", "الشفق", "Creative",
    PptDesignColors("#0f172a", "#06b6d4", "#a855f7", "#0f172a", "#020617", "#e2e8f0", "#67e8f9"),
    Abstract, Waves)
  const FOREST := PptDesign("forest", "Forest", "الغابة", "Creative",
    PptDesignColors("#14532d", "#166534", "#22c55e", "#f0fdf4", "#14532d", "#15803d", "#4ade80"),
    Geometric, Triangles)
  const DESERT := PptDesign("desert", "Desert", "الصحراء", "Creative",
    PptDesignColors("#78350f", "#b45309", "#f59e0b", "#fffbeb", "#78350f", "#92400e", "#d97706"),
    Wave, Dots)
  const GALAXY := PptDesign("galaxy", "Galaxy", "المجرة", "Creative",
    PptDesignColors("#0f0a1e", "#6366f1", "#818cf8", "#0f0a1e", "#0a0512", "#e0e7ff", "#a5b4fc"),
    Abstract, Dots)
  const LAVA := PptDesign("lava", "Lava", "الحمم", "Creative",
    PptDesignColors("#450a0a", "#dc2626", "#f87171", "#0a0a0a", "#450a0a", "#fecaca", "#ef4444"),
    Bold, Waves)
  const ICE := PptDesign("ice", "Ice", "الجليد", "Creative",
    PptDesignColors("#0c4a6e", "#7dd3fc", "#bae6fd", "#f0f9ff", "#0c4a6e", "#0369a1", "#38bdf8"),
    Geometric, Hexagons)
  const SPRING := PptDesign("spring", "Spring", "الربيع", "Creative",
    PptDesignColors("#be185d", "#f472b6", "#fbcfe8", "#fdf2f8", "#9d174d", "#831843", "#db2777"),
    Creative, Circles)
  const MINIMAL_MONO := PptDesign("minimal-mono", "Minimal", "البسيط", "Creative",
    PptDesignColors("#0a0a0a", "#525252", "#171717", "#fafafa", "#0a0a0a", "#171717", "#737373"),
    Minimal, NoShapes)

  const TECH_AND_BUSINESS: seq<PptDesign> := [CYBER_NEON, MARKETING, HR]
  const ACADEMIC: seq<PptDesign> := [UNIVERSITY, SCIENCE_LAB, MEDICAL, ENGINEERING, ARTS, LITERATURE, HISTORY, PSYCHOLOGY, BIOLOGY, CHEMISTRY]
  const LUXURY: seq<PptDesign> := [BLACK_GOLD, ROSE_GOLD, ROYAL_BLUE, DIAMOND, BURGUNDY, EMERALD, SAPPHIRE, AMETHYST, PEARL, OBSIDIAN]
  const CREATIVE: seq<PptDesign> := [OCEAN_WAVE, SUNSET, AURORA, FOREST, DESERT, GALAXY, LAVA, ICE, SPRING, MINIMAL_MONO]

  const PPT_DESIGN_TEMPLATES: seq<PptDesign> := TECH_AND_BUSINESS + ACADEMIC + LUXURY + CREATIVE

  const PPT_CATEGORIES: seq<string> := ["Tech", "Professional", "Academic", "Luxury", "Creative"]

  // ---------------------------------------------------------------------------
  // Table invariants

  /** Every colour of a design is '#' followed by six hex digits. */
  predicate ColorsAreHex(c: PptDesignColors) {
    Color.IsHexColor(c.primary) && Color.IsHexColor(c.secondary) && Color.IsHexColor(c.accent)
    && Color.IsHexColor(c.background) && Color.IsHexColor(c.titleBg)
    && Color.IsHexColor(c.textColor) && Color.IsHexColor(c.subtitleColor)
  }

  /** The first three letters of an id as one number (0 for a missing third letter). */
  function Key(id: string): int
    requires |id| >= 2
  {
    id[0] as int * 16384 + id[1] as int * 128 + (if |id| > 2 then id[2] as int else 0)
  }

  /** The place of the design whose id has a given key (-1 for none), searched in key order. */
  function DesignOfKey(key: int): int {
    if key < 1733093 then
      if key < 1651443 then
        if key < 1619553 then
          if key < 1604338 then
            if key == 1603301 then 20 // amethyst
            else if key == 1603956 then 7 // arts
            else -1
          else
            if key == 1604338 then 25 // aurora
            else if key == 1619183 then 11 // biology
            else -1
        else
          if key < 1635429 then
            if key == 1619553 then 13 // black-gold
            else if key == 1620722 then 17 // burgundy
            else -1
          else
            if key == 1635429 then 12 // chemistry
            else if key == 1637602 then 0 // cyber-neon
            else -1
      else
        if key < 1685490 then
          if key < 1668837 then
            if key == 1651443 then 27 // desert
            else if key == 1651937 then 16 // diamond
            else -1
          else
            if key == 1668837 then 18 // emerald
            else if key == 1668967 then 6 // engineering
            else -1
        else
          if key < 1717491 then
            if key == 1685490 then 26 // forest
            else if key == 1700076 then 28 // galaxy
            else -1
          else
            if key == 1717491 then 9 // history
            else if key == 1718528 then 2 // hr
            else -1
    else
      if key < 1848033 then
        if key < 1798884 then
          if key < 1783028 then
            if key == 1733093 then 30 // ice
            else if key == 1782006 then 29 // lava
            else -1
          else
            if key == 1783028 then 8 // literature
            else if key == 1798386 then 1 // marketing
            else -1
        else
          if key < 1831283 then
            if key == 1798884 then 5 // medical
            else if key == 1799406 then 32 // minimal-mono
            else -1
          else
            if key == 1831283 then 22 // obsidian
            else if key == 1831397 then 23 // ocean-wave
            else -1
      else
        if key < 1896688 then
          if key < 1882099 then
            if key == 1848033 then 21 // pearl
            else if key == 1849849 then 10 // psychology
            else -1
          else
            if key == 1882099 then 14 // rose-gold
            else if key == 1882105 then 15 // royal-blue
            else -1
        else
          if key < 1898610 then
            if key == 1896688 then 19 // sapphire
            else if key == 1896937 then 4 // science-lab
            else -1
          else
            if key == 1898610 then 31 // spring
            else if key == 1899246 then 24 // sunset
            else if key == 1931113 then 3 // university
            else -1
  }

  /**
   * What is checked of the design at place k: hex colours, a listed category,
   * and an id whose key leads back to k (so no other design shares the id).
   */
  predicate DesignOk(d: PptDesign, k: int) {
    ColorsAreHex(d.colors) && d.category in PPT_CATEGORIES
    && |d.id| >= 2 && DesignOfKey(Key(d.id)) == k
  }

  /** The designs at places lo..hi-1 of a section starting at `offset` in the table pass the check. */
  predicate SectionOkBetween(section: seq<PptDesign>, offset: int, lo: int, hi: int) {
    forall i :: lo <= i < hi && 0 <= i < |section| ==> DesignOk(section[i], offset + i)
  }

  predicate SectionOk(section: seq<PptDesign>, offset: int) {
    SectionOkBetween(section, offset, 0, |section|)
  }

  // Each design checked on its own.
  lemma CyberNeonOk() ensures SectionOkBetween(TECH_AND_BUSINESS, 0, 0, 1) { assert DesignOk(TECH_AND_BUSINESS[0], 0); }
  lemma MarketingOk() ensures SectionOkBetween(TECH_AND_BUSINESS, 0, 1, 2) { assert DesignOk(TECH_AND_BUSINESS[1], 1); }
  lemma HrOk() ensures SectionOkBetween(TECH_AND_BUSINESS, 0, 2, 3) { assert DesignOk(TECH_AND_BUSINESS[2], 2); }
  lemma UniversityOk() ensures SectionOkBetween(ACADEMIC, 3, 0, 1) { assert DesignOk(ACADEMIC[0], 3); }
  lemma ScienceLabOk() ensures SectionOkBetween(ACADEMIC, 3, 1, 2) { assert DesignOk(ACADEMIC[1], 4); }
  lemma MedicalOk() ensures SectionOkBetween(ACADEMIC, 3, 2, 3) { assert DesignOk(ACADEMIC[2], 5); }
  lemma EngineeringOk() ensures SectionOkBetween(ACADEMIC, 3, 3, 4) { assert DesignOk(ACADEMIC[3], 6); }
  lemma ArtsOk() ensures SectionOkBetween(ACADEMIC, 3, 4, 5) { assert DesignOk(ACADEMIC[4], 7); }
  lemma LiteratureOk() ensures SectionOkBetween(ACADEMIC, 3, 5, 6) { assert DesignOk(ACADEMIC[5], 8); }
  lemma HistoryOk() ensures SectionOkBetween(ACADEMIC, 3, 6, 7) { assert DesignOk(ACADEMIC[6], 9); }
  lemma PsychologyOk() ensures SectionOkBetween(ACADEMIC, 3, 7, 8) { assert DesignOk(ACADEMIC[7], 10); }
  lemma BiologyOk() ensures SectionOkBetween(ACADEMIC, 3, 8, 9) { assert DesignOk(ACADEMIC[8], 11); }
  lemma ChemistryOk() ensures SectionOkBetween(ACADEMIC, 3, 9, 10) { assert DesignOk(ACADEMIC[9], 12); }
  lemma BlackGoldOk() ensures SectionOkBetween(LUXURY, 13, 0, 1) { assert DesignOk(LUXURY[0], 13); }
  lemma RoseGoldOk() ensures SectionOkBetween(LUXURY, 13, 1, 2) { assert DesignOk(LUXURY[1], 14); }
  lemma RoyalBlueOk() ensures SectionOkBetween(LUXURY, 13, 2, 3) { assert DesignOk(LUXURY[2], 15); }
  lemma DiamondOk() ensures SectionOkBetween(LUXURY, 13, 3, 4) { assert DesignOk(LUXURY[3], 16); }
  lemma BurgundyOk() ensures SectionOkBetween(LUXURY, 13, 4, 5) { assert DesignOk(LUXURY[4], 17); }
  lemma EmeraldOk() ensures SectionOkBetween(LUXURY, 13, 5, 6) { assert DesignOk(LUXURY[5], 18); }
  lemma SapphireOk() ensures SectionOkBetween(LUXURY, 13, 6, 7) { assert DesignOk(LUXURY[6], 19); }
  lemma AmethystOk() ensures SectionOkBetween(LUXURY, 13, 7, 8) { assert DesignOk(LUXURY[7], 20); }
  lemma PearlOk() ensures SectionOkBetween(LUXURY, 13, 8, 9) { assert DesignOk(LUXURY[8], 21); }
  lemma ObsidianOk() ensures SectionOkBetween(LUXURY, 13, 9, 10) { assert DesignOk(LUXURY[9], 22); }
  lemma OceanWaveOk() ensures SectionOkBetween(CREATIVE, 23, 0, 1) { assert DesignOk(CREATIVE[0], 23); }
  lemma SunsetOk() ensures SectionOkBetween(CREATIVE, 23, 1, 2) { assert DesignOk(CREATIVE[1], 24); }
  lemma AuroraOk() ensures SectionOkBetween(CREATIVE, 23, 2, 3) { assert DesignOk(CREATIVE[2], 25); }
  lemma ForestOk() ensures SectionOkBetween(CREATIVE, 23, 3, 4) { assert DesignOk(CREATIVE[3], 26); }
  lemma DesertOk() ensures SectionOkBetween(CREATIVE, 23, 4, 5) { assert DesignOk(CREATIVE[4], 27); }
  lemma GalaxyOk() ensures SectionOkBetween(CREATIVE, 23, 5, 6) { assert DesignOk(CREATIVE[5], 28); }
  lemma LavaOk() ensures SectionOkBetween(CREATIVE, 23, 6, 7) { assert DesignOk(CREATIVE[6], 29); }
  lemma IceOk() ensures SectionOkBetween(CREATIVE, 23, 7, 8) { assert DesignOk(CREATIVE[7], 30); }
  lemma SpringOk() ensures SectionOkBetween(CREATIVE, 23, 8, 9) { assert DesignOk(CREATIVE[8], 31); }
  lemma MinimalMonoOk() ensures SectionOkBetween(CREATIVE, 23, 9, 10) { assert DesignOk(CREATIVE[9], 32); }

  lemma TechAndBusinessOk()
    ensures SectionOk(TECH_AND_BUSINESS, 0)
  {
    CyberNeonOk();
    MarketingOk();
    HrOk();
  }

  lemma AcademicOk()
    ensures SectionOk(ACADEMIC, 3)
  {
    UniversityOk();
    ScienceLabOk();
    MedicalOk();
    EngineeringOk();
    ArtsOk();
    LiteratureOk();
    HistoryOk();
    PsychologyOk();
    BiologyOk();
    ChemistryOk();
  }

  lemma LuxuryOk()
    ensures SectionOk(LUXURY, 13)
  {
    BlackGoldOk();
    RoseGoldOk();
    RoyalBlueOk();
    DiamondOk();
    BurgundyOk();
    EmeraldOk();
    SapphireOk();
    AmethystOk();
    PearlOk();
    ObsidianOk();
  }

  lemma CreativeOk()
    ensures SectionOk(CREATIVE, 23)
  {
    OceanWaveOk();
    SunsetOk();
    AuroraOk();
    ForestOk();
    DesertOk();
    GalaxyOk();
    LavaOk();
    IceOk();
    SpringOk();
    MinimalMonoOk();
  }

  /** Two checked sections, one after the other, make a checked section. */
  lemma SectionOkConcat(a: seq<PptDesign>, b: seq<PptDesign>, offset: int)
    requires SectionOk(a, offset) && SectionOk(b, offset + |a|)
    ensures SectionOk(a + b, offset)
  {
    forall i | 0 <= i < |a + b| ensures DesignOk((a + b)[i], offset + i) {
      if i < |a| {
        assert (a + b)[i] == a[i];
      } else {
        assert (a + b)[i] == b[i - |a|];
      }
    }
  }

  /** Every design of the table passes the check at its own place. */
  lemma TableOk()
    ensures |PPT_DESIGN_TEMPLATES| == 33 && SectionOk(PPT_DESIGN_TEMPLATES, 0)
  {
    TechAndBusinessOk();
    AcademicOk();
    LuxuryOk();
    CreativeOk();
    SectionOkConcat(TECH_AND_BUSINESS, ACADEMIC, 0);
    SectionOkConcat(TECH_AND_BUSINESS + ACADEMIC, LUXURY, 0);
    SectionOkConcat(TECH_AND_BUSINESS + ACADEMIC + LUXURY, CREATIVE, 0);
  }

  predicate IdsDistinct(designs: seq<PptDesign>) {
    forall a, b :: 0 <= a < b < |designs| ==> designs[a].id != designs[b].id
  }

  /** The table holds 33 designs; their ids are pairwise distinct. */
  lemma TableIdsDistinct()
    ensures |PPT_DESIGN_TEMPLATES| == 33 && IdsDistinct(PPT_DESIGN_TEMPLATES)
  {
    TableOk();
    var t := PPT_DESIGN_TEMPLATES;
    forall a, b | 0 <= a < b < |t| ensures t[a].id != t[b].id {
      assert DesignOk(t[a], a) && DesignOk(t[b], b);
      assert DesignOfKey(Key(t[a].id)) != DesignOfKey(Key(t[b].id));
    }
  }

  /** Every design's category is one of `PPT_CATEGORIES`. */
  lemma TableCategoriesKnown()
    ensures forall k :: 0 <= k < |PPT_DESIGN_TEMPLATES| ==> PPT_DESIGN_TEMPLATES[k].category in PPT_CATEGORIES
  {
    TableOk();
  }

  /**
   * Every colour of every design is '#' and six hex digits, so `isDarkColor`
   * reads three real channels from it.
   */
  lemma TableColorsHex()
    ensures forall k :: 0 <= k < |PPT_DESIGN_TEMPLATES| ==> ColorsAreHex(PPT_DESIGN_TEMPLATES[k].colors)
  {
    TableOk();
  }

  /** The first design, the one the presentation page starts with, is 'cyber-neon'. */
  lemma FirstDesign()
    ensures |PPT_DESIGN_TEMPLATES| > 0 && PPT_DESIGN_TEMPLATES[0] == CYBER_NEON
    ensures PPT_DESIGN_TEMPLATES[0].id == "cyber-neon"
  {
    var t := PPT_DESIGN_TEMPLATES;
    assert t == TECH_AND_BUSINESS + (ACADEMIC + LUXURY + CREATIVE);
  }

  // ---------------------------------------------------------------------------
  // Lookups

  /** `designs.find(d => d.id === id)`, with `None` for undefined. */
  function FindById(designs: seq<PptDesign>, id: string): (r: Option<PptDesign>)
    ensures r.Some? ==> r.value in designs && r.value.id == id
    ensures r.None? <==> forall k :: 0 <= k < |designs| ==> designs[k].id != id
  {
    if |designs| == 0 then None
    else if designs[0].id == id then Some(designs[0])
    else FindById(designs[1..], id)
  }

  /** `find` returns the first entry that carries the id. */
  lemma {:induction false} FindByIdFirst(designs: seq<PptDesign>, k: nat)
    requires k < |designs|
    requires forall m :: 0 <= m < k ==> designs[m].id != designs[k].id
    ensures FindById(designs, designs[k].id) == Some(designs[k])
  {
    if k > 0 {
      FindByIdFirst(designs[1..], k - 1);
    }
  }

  /** `getDesignById` */
  function GetDesignById(id: string): (r: Option<PptDesign>)
    ensures r.Some? ==> r.value in PPT_DESIGN_TEMPLATES && r.value.id == id
    ensures r.None? <==> forall k :: 0 <= k < |PPT_DESIGN_TEMPLATES| ==> PPT_DESIGN_TEMPLATES[k].id != id
  {
    FindById(PPT_DESIGN_TEMPLATES, id)
  }

  /** Looking up the id of any design of the table gives back that design. */
  lemma GetDesignByIdOfDesign(k: nat)
    requires k < |PPT_DESIGN_TEMPLATES|
    ensures GetDesignById(PPT_DESIGN_TEMPLATES[k].id) == Some(PPT_DESIGN_TEMPLATES[k])
  {
    TableIdsDistinct();
    FindByIdFirst(PPT_DESIGN_TEMPLATES, k);
  }

  /** `designs.filter(d => d.category === cat)` */
  function FilterByCategory(designs: seq<PptDesign>, cat: string): (r: seq<PptDesign>)
    ensures |r| <= |designs|
    ensures forall d :: d in r <==> d in designs && d.category == cat
  {
    if |designs| == 0 then []
    else
      var rest := FilterByCategory(designs[1..], cat);
      assert designs == [designs[0]] + designs[1..];
      if designs[0].category == cat then [designs[0]] + rest else rest
  }

  /** Filtering works piece by piece, so it keeps the table order. */
  lemma {:induction false} FilterConcat(a: seq<PptDesign>, b: seq<PptDesign>, cat: string)
    ensures FilterByCategory(a + b, cat) == FilterByCategory(a, cat) + FilterByCategory(b, cat)
  {
    if |a| > 0 {
      assert (a + b)[1..] == a[1..] + b;
      FilterConcat(a[1..], b, cat);
    } else {
      assert a + b == b;
    }
  }

  /** `getDesignsByCategory` */
  function GetDesignsByCategory(cat: string): (r: seq<PptDesign>)
    ensures forall d :: d in r <==> d in PPT_DESIGN_TEMPLATES && d.category == cat
  {
    FilterByCategory(PPT_DESIGN_TEMPLATES, cat)
  }

  /** Filtering on a category no design has gives nothing. */
  lemma {:induction false} FilterNoneMatch(designs: seq<PptDesign>, cat: string)
    requires forall k :: 0 <= k < |designs| ==> designs[k].category != cat
    ensures FilterByCategory(designs, cat) == []
  {
    if |designs| > 0 {
      FilterNoneMatch(designs[1..], cat);
    }
  }

  /** A category outside `PPT_CATEGORIES` selects no design. */
  lemma UnknownCategoryEmpty(cat: string)
    requires cat !in PPT_CATEGORIES
    ensures GetDesignsByCategory(cat) == []
  {
    TableCategoriesKnown();
    FilterNoneMatch(PPT_DESIGN_TEMPLATES, cat);
  }

  /** Each of the five categories has at least one design. */
  lemma CategoriesUsed()
    ensures forall c :: c in PPT_CATEGORIES ==> |GetDesignsByCategory(c)| > 0
  {
    forall c | c in PPT_CATEGORIES ensures |GetDesignsByCategory(c)| > 0 {
      if c == "Tech" {
        CategoryHasDesign(CYBER_NEON, c, 0);
      } else if c == "Professional" {
        CategoryHasDesign(MARKETING, c, 1);
      } else if c == "Academic" {
        CategoryHasDesign(UNIVERSITY, c, 3);
      } else if c == "Luxury" {
        CategoryHasDesign(BLACK_GOLD, c, 13);
      } else {
        CategoryHasDesign(OCEAN_WAVE, c, 23);
      }
    }
  }

  /** A design of the table with category `c` is selected by `c`. */
  lemma CategoryHasDesign(d: PptDesign, c: string, k: nat)
    requires k < |PPT_DESIGN_TEMPLATES| && PPT_DESIGN_TEMPLATES[k] == d && d.category == c
    ensures |GetDesignsByCategory(c)| > 0
  {
    assert d in GetDesignsByCategory(c);
  }

  // ---------------------------------------------------------------------------
  // The categories split the table

  /** How many entries of `cats` equal `c`. */
  function Occurrences(cats: seq<string>, c: string): nat {
    if |cats| == 0 then 0 else (if cats[0] == c then 1 else 0) + Occurrences(cats[1..], c)
  }

  /** The total size of the per-category selections, category by category. */
  function CountAcross(designs: seq<PptDesign>, cats: seq<string>): nat {
    if |cats| == 0 then 0
    else |FilterByCategory(designs, cats[0])| + CountAcross(designs, cats[1..])
  }

  predicate Distinct(cats: seq<string>) {
    forall a, b :: 0 <= a < b < |cats| ==> cats[a] != cats[b]
  }

  lemma {:induction false} OccursOnce(cats: seq<string>, c: string)
    requires Distinct(cats) && c in cats
    ensures Occurrences(cats, c) == 1
  {
    if cats[0] == c {
      OccursNot(cats[1..], c);
    } else {
      assert c in cats[1..];
      OccursOnce(cats[1..], c);
    }
  }

  lemma {:induction false} OccursNot(cats: seq<string>, c: string)
    requires c !in cats
    ensures Occurrences(cats, c) == 0
  {
    if |cats| > 0 {
      assert c !in cats[1..];
      OccursNot(cats[1..], c);
    }
  }

  lemma {:induction false} CountAcrossEmpty(cats: seq<string>)
    ensures CountAcross([], cats) == 0
  {
    if |cats| > 0 {
      CountAcrossEmpty(cats[1..]);
    }
  }

  /** Adding one design in front adds it once for every category that names it. */
  lemma {:induction false} CountAcrossCons(d: PptDesign, rest: seq<PptDesign>, cats: seq<string>)
    ensures CountAcross([d] + rest, cats) == Occurrences(cats, d.category) + CountAcross(rest, cats)
  {
    if |cats| > 0 {
      assert ([d] + rest)[1..] == rest;
      CountAcrossCons(d, rest, cats[1..]);
    }
  }

  /**
   * When every design's category is one of `cats` and `cats` has no repeats,
   * the selections of the categories together hold exactly the designs.
   */
  lemma {:induction false} CategoriesPartition(designs: seq<PptDesign>, cats: seq<string>)
    requires Distinct(cats)
    requires forall k :: 0 <= k < |designs| ==> designs[k].category in cats
    ensures CountAcross(designs, cats) == |designs|
  {
    if |designs| == 0 {
      CountAcrossEmpty(cats);
    } else {
      var d, rest := designs[0], designs[1..];
      assert designs == [d] + rest;
      CategoriesPartition(rest, cats);
      CountAcrossCons(d, rest, cats);
      OccursOnce(cats, d.category);
    }
  }

  /** The five category selections of the table together hold all 33 designs. */
  lemma TableCategoriesPartition()
    ensures CountAcross(PPT_DESIGN_TEMPLATES, PPT_CATEGORIES) == 33
  {
    TableOk();
    TableCategoriesKnown();
    assert Distinct(PPT_CATEGORIES);
    CategoriesPartition(PPT_DESIGN_TEMPLATES, PPT_CATEGORIES);
  }
}
