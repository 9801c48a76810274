/**
 * The document design catalogue of utils/designTemplates.tsx: fifteen colour
 * palettes crossed with ten header layouts by a nested loop, giving one
 * template per (layout, palette) pair, looked up by id.
 */
module DesignTemplates {
  import opened Common
  import opened Text

  /** The colour set of a document design; gradients are kept as the CSS text they are. */
  datatype DesignColors = DesignColors(
    primary: string, secondary: string, accent: string,
    headerBg: string, footerBg: string,
    textPrimary: string, textSecondary: string,
    borderTop: string, borderBottom: string, titleBg: string)

  datatype PaletteDef = PaletteDef(name: string, colors: DesignColors)

  /** A header layout: its `HeaderLayout` id and its display name (the icon is left out). */
  datatype LayoutDef = LayoutDef(id: string, name: string)

  datatype DesignTemplate = DesignTemplate(
    id: string, name: string, nameAr: string, headerLayout: string, colors: DesignColors)

  const ROYAL_BLUE_COLORS: DesignColors := DesignColors("#1e3a8a", "#1d4ed8", "#3b82f6", "linear-gradient(135deg, #1e3a8a 0%, #2563eb 100%)", "#eff6ff", "#172554", "#64748b", "linear-gradient(to right, #1e3a8a, #3b82f6)", "linear-gradient(to right, #3b82f6, #1e3a8a)", "#1e3a8a")
  const EMERALD_CITY_COLORS: DesignColors := DesignColors("#064e3b", "#047857", "#10b981", "linear-gradient(135deg, #064e3b 0%, #059669 100%)", "#ecfdf5", "#022c22", "#475569", "linear-gradient(to right, #064e3b, #10b981)", "linear-gradient(to right, #10b981, #064e3b)", "#064e3b")
  const CRIMSON_RED_COLORS: DesignColors := DesignColors("#7f1d1d", "#b91c1c", "#ef4444", "linear-gradient(135deg, #7f1d1d 0%, #dc2626 100%)", "#fef2f2", "#450a0a", "#57534e", "linear-gradient(to right, #7f1d1d, #ef4444)", "linear-gradient(to right, #ef4444, #7f1d1d)", "#7f1d1d")
  const AMETHYST_PURPLE_COLORS: DesignColors := DesignColors("#581c87", "#7e22ce", "#a855f7", "linear-gradient(135deg, #581c87 0%, #7e22ce 100%)", "#faf5ff", "#3b0764", "#52525b", "linear-gradient(to right, #581c87, #a855f7)", "linear-gradient(to right, #a855f7, #581c87)", "#581c87")
  const SUNSET_ORANGE_COLORS: DesignColors := DesignColors("#7c2d12", "#c2410c", "#f97316", "linear-gradient(135deg, #7c2d12 0%, #ea580c 100%)", "#fff7ed", "#431407", "#57534e", "linear-gradient(to right, #7c2d12, #f97316)", "linear-gradient(to right, #f97316, #7c2d12)", "#7c2d12")
  const TEAL_OCEAN_COLORS: DesignColors := DesignColors("#134e4a", "#0f766e", "#14b8a6", "linear-gradient(135deg, #134e4a 0%, #0d9488 100%)", "#f0fdfa", "#042f2e", "#475569", "linear-gradient(to right, #134e4a, #14b8a6)", "linear-gradient(to right, #14b8a6, #134e4a)", "#134e4a")
  const CYAN_SKY_COLORS: DesignColors := DesignColors("#164e63", "#0e7490", "#06b6d4", "linear-gradient(135deg, #164e63 0%, #0891b2 100%)", "#ecfeff", "#083344", "#475569", "linear-gradient(to right, #164e63, #06b6d4)", "linear-gradient(to right, #06b6d4, #164e63)", "#164e63")
  const MAGENTA_ROSE_COLORS: DesignColors := DesignColors("#831843", "#be185d", "#ec4899", "linear-gradient(135deg, #831843 0%, #db2777 100%)", "#fdf2f8", "#500724", "#52525b", "linear-gradient(to right, #831843, #ec4899)", "linear-gradient(to right, #ec4899, #831843)", "#831843")
  const GOLDEN_LUX_COLORS: DesignColors := DesignColors("#713f12", "#a16207", "#eab308", "linear-gradient(135deg, #713f12 0%, #ca8a04 100%)", "#fefce8", "#422006", "#57534e", "linear-gradient(to right, #713f12, #eab308)", "linear-gradient(to right, #eab308, #713f12)", "#713f12")
  const SLATE_MINIMAL_COLORS: DesignColors := DesignColors("#0f172a", "#334155", "#64748b", "linear-gradient(135deg, #0f172a 0%, #334155 100%)", "#f8fafc", "#020617", "#64748b", "linear-gradient(to right, #0f172a, #64748b)", "linear-gradient(to right, #64748b, #0f172a)", "#0f172a")
  const INDIGO_NIGHT_COLORS: DesignColors := DesignColors("#312e81", "#4338ca", "#6366f1", "linear-gradient(135deg, #312e81 0%, #4f46e5 100%)", "#eef2ff", "#1e1b4b", "#475569", "linear-gradient(to right, #312e81, #6366f1)", "linear-gradient(to right, #6366f1, #312e81)", "#312e81")
  const LIME_FRESH_COLORS: DesignColors := DesignColors("#365314", "#4d7c0f", "#84cc16", "linear-gradient(135deg, #365314 0%, #65a30d 100%)", "#f7fee7", "#1a2e05", "#57534e", "linear-gradient(to right, #365314, #84cc16)", "linear-gradient(to right, #84cc16, #365314)", "#365314")
  const FUCHSIA_POP_COLORS: DesignColors := DesignColors("#701a75", "#a21caf", "#d946ef", "linear-gradient(135deg, #701a75 0%, #c026d3 100%)", "#fdf4ff", "#4a044e", "#52525b", "linear-gradient(to right, #701a75, #d946ef)", "linear-gradient(to right, #d946ef, #701a75)", "#701a75")
  const BRONZE_EARTH_COLORS: DesignColors := DesignColors("#451a03", "#78350f", "#d97706", "linear-gradient(135deg, #451a03 0%, #92400e 100%)", "#fffbeb", "#451a03", "#57534e", "linear-gradient(to right, #451a03, #d97706)", "linear-gradient(to right, #d97706, #451a03)", "#451a03")
  const MIDNIGHT_COLORS: DesignColors := DesignColors("#020617", "#1e293b", "#94a3b8", "linear-gradient(135deg, #020617 0%, #172554 100%)", "#f8fafc", "#000000", "#4b5563", "linear-gradient(to right, #020617, #94a3b8)", "linear-gradient(to right, #94a3b8, #020617)", "#020617")

  const PALETTES: seq<PaletteDef> := [
    PaletteDef("Royal Blue", ROYAL_BLUE_COLORS),
    PaletteDef("Emerald City", EMERALD_CITY_COLORS),
    PaletteDef("Crimson Red", CRIMSON_RED_COLORS),
    PaletteDef("Amethyst Purple", AMETHYST_PURPLE_COLORS),
    PaletteDef("Sunset Orange", SUNSET_ORANGE_COLORS),
    PaletteDef("Teal Ocean", TEAL_OCEAN_COLORS),
    PaletteDef("Cyan Sky", CYAN_SKY_COLORS),
    PaletteDef("Magenta Rose", MAGENTA_ROSE_COLORS),
    PaletteDef("Golden Lux", GOLDEN_LUX_COLORS),
    PaletteDef("Slate Minimal", SLATE_MINIMAL_COLORS),
    PaletteDef("Indigo Night", INDIGO_NIGHT_COLORS),
    PaletteDef("Lime Fresh", LIME_FRESH_COLORS),
    PaletteDef("Fuchsia Pop", FUCHSIA_POP_COLORS),
    PaletteDef("Bronze Earth", BRONZE_EARTH_COLORS),
    PaletteDef("Midnight", MIDNIGHT_COLORS)
  ]

  const LAYOUTS: seq<LayoutDef> := [
    LayoutDef("classic", "Classic"), LayoutDef("centered", "Centered"),
    LayoutDef("modern", "Modern"), LayoutDef("minimal", "Minimal"),
    LayoutDef("corporate", "Corporate"), LayoutDef("elegant", "Elegant"),
    LayoutDef("tech", "Tech"), LayoutDef("nature", "Nature"),
    LayoutDef("geometric", "Geometric"), LayoutDef("wave", "Wave")
  ]

  // ---------------------------------------------------------------------------
  // One template

  /** `palette.name.toLowerCase().replace(/\s+/g, '-')` */
  function Slug(name: string): string {
    CollapseWhitespace(LowerAscii(name), ['-'])
  }

  /** The template that the loop body pushes for one layout and one palette. */
  function Combine(layout: LayoutDef, palette: PaletteDef): DesignTemplate {
    DesignTemplate(
      layout.id + ['-'] + Slug(palette.name),
      palette.name + [' '] + layout.name,
      layout.name + [' ', '-', ' '] + palette.name,
      layout.id,
      palette.colors)
  }

  /**
   * The id reads back: when the layout id has no '-', the text before the
   * first '-' of the template id is the layout id and the rest is the slug.
   */
  lemma CombineIdParts(layout: LayoutDef, palette: PaletteDef)
    requires '-' !in layout.id
    ensures var id := Combine(layout, palette).id;
      '-' in id && id[..IndexOfChar(id, '-')] == layout.id
      && id[IndexOfChar(id, '-') + 1..] == Slug(palette.name)
  {
    var id := Combine(layout, palette).id;
    var n := |layout.id|;
    assert id[n] == '-' && id[..n] == layout.id;
    IndexOfCharAt(id, '-', n);
    assert id[n + 1..] == Slug(palette.name);
  }

  /** Pairs that differ in layout id or in palette slug give different ids. */
  lemma CombineIdsApart(l1: LayoutDef, p1: PaletteDef, l2: LayoutDef, p2: PaletteDef)
    requires '-' !in l1.id && '-' !in l2.id
    requires l1.id != l2.id || Slug(p1.name) != Slug(p2.name)
    ensures Combine(l1, p1).id != Combine(l2, p2).id
  {
    CombineIdParts(l1, p1);
    CombineIdParts(l2, p2);
  }

  // ---------------------------------------------------------------------------
  // The cross product, for any way `f` of combining a layout with a palette

  /** The combinations of one layout, in palette order. */
  function Row<L, P, T>(layout: L, palettes: seq<P>, f: (L, P) -> T): (r: seq<T>)
    ensures |r| == |palettes|
    ensures forall j :: 0 <= j < |palettes| ==> r[j] == f(layout, palettes[j])
  {
    if |palettes| == 0 then []
    else Row(layout, palettes[..|palettes| - 1], f) + [f(layout, palettes[|palettes| - 1])]
  }

  /** All combinations, layout-major: the rows of the layouts one after another. */
  function Cross<L, P, T>(layouts: seq<L>, palettes: seq<P>, f: (L, P) -> T): seq<T>
  {
    if |layouts| == 0 then []
    else Cross(layouts[..|layouts| - 1], palettes, f) + Row(layouts[|layouts| - 1], palettes, f)
  }

  /** Where row i starts: i rows of p entries each (i * p, see OffsetIsProduct). */
  function Offset(i: nat, p: nat): nat {
    if i == 0 then 0 else Offset(i - 1, p) + p
  }

  lemma {:induction false} OffsetIsProduct(i: nat, p: nat)
    ensures Offset(i, p) == i * p
  {
    if i > 0 {
      OffsetIsProduct(i - 1, p);
      assert (i - 1) * p + p == i * p;
    }
  }

  lemma {:induction false} OffsetMonotone(i: nat, n: nat, p: nat)
    requires i < n
    ensures Offset(i, p) + p <= Offset(n, p)
  {
    if i < n - 1 {
      OffsetMonotone(i, n - 1, p);
    }
  }

  /** The cross product has |layouts| * |palettes| entries (Offset(n, p) is n * p). */
  lemma {:induction false} CrossLength<L, P, T>(layouts: seq<L>, palettes: seq<P>, f: (L, P) -> T)
    ensures |Cross(layouts, palettes, f)| == Offset(|layouts|, |palettes|)
  {
    if |layouts| > 0 {
      CrossLength(layouts[..|layouts| - 1], palettes, f);
    }
  }

  /**
   * The entry at index i * |palettes| + j (written Offset(i, |palettes|) + j)
   * combines layout i with palette j.
   */
  lemma {:induction false} CrossAt<L, P, T>(layouts: seq<L>, palettes: seq<P>, f: (L, P) -> T, i: nat, j: nat)
    requires i < |layouts| && j < |palettes|
    ensures Offset(i, |palettes|) + j < |Cross(layouts, palettes, f)|
    ensures Cross(layouts, palettes, f)[Offset(i, |palettes|) + j] == f(layouts[i], palettes[j])
  {
    var n, p := |layouts|, |palettes|;
    var init := layouts[..n - 1];
    var front := Cross(init, palettes, f);
    var row := Row(layouts[n - 1], palettes, f);
    var all := Cross(layouts, palettes, f);
    assert all == front + row;
    CrossLength(init, palettes, f);
    var k := Offset(i, p) + j;
    if i < n - 1 {
      CrossAt(init, palettes, f, i, j);
      OffsetMonotone(i, n - 1, p);
      assert init[i] == layouts[i];
      assert all[k] == front[k];
    } else {
      assert all[k] == row[j];
    }
  }

  /** `CrossAt` with the index written as a product. */
  lemma CrossAtProduct<L, P, T>(layouts: seq<L>, palettes: seq<P>, f: (L, P) -> T, i: nat, j: nat)
    requires i < |layouts| && j < |palettes|
    ensures |Cross(layouts, palettes, f)| == |layouts| * |palettes|
    ensures i * |palettes| + j < |Cross(layouts, palettes, f)|
    ensures Cross(layouts, palettes, f)[i * |palettes| + j] == f(layouts[i], palettes[j])
  {
    CrossLength(layouts, palettes, f);
    OffsetIsProduct(|layouts|, |palettes|);
    OffsetIsProduct(i, |palettes|);
    CrossAt(layouts, palettes, f, i, j);
    var k := Offset(i, |palettes|) + j;
    assert i * |palettes| + j == k;
  }

  /** The templates `generateTemplates` builds from the layouts and the palettes. */
  function Templates(layouts: seq<LayoutDef>, palettes: seq<PaletteDef>): seq<DesignTemplate> {
    Cross(layouts, palettes, Combine)
  }

  /**
   * `generateTemplates`: for each layout, for each palette, push the combined
   * template.
   */
  method GenerateTemplates(layouts: seq<LayoutDef>, palettes: seq<PaletteDef>)
    returns (templates: seq<DesignTemplate>)
    ensures templates == Templates(layouts, palettes)
  {
    templates := [];
    var i := 0;
    while i < |layouts|
      invariant 0 <= i <= |layouts|
      invariant templates == Cross(layouts[..i], palettes, Combine)
    {
      var layout := layouts[i];
      var j := 0;
      while j < |palettes|
        invariant 0 <= j <= |palettes|
        invariant templates == Cross(layouts[..i], palettes, Combine) + Row(layout, palettes[..j], Combine)
      {
        RowStep(Cross(layouts[..i], palettes, Combine), layout, palettes, j, Combine);
        templates := templates + [Combine(layout, palettes[j])];
        j := j + 1;
      }
      CrossStep(layouts, palettes, i, Combine);
      i := i + 1;
    }
    assert layouts[..i] == layouts;
  }

  /** One more palette extends a row, after any front, by its combination. */
  lemma RowStep<L, P, T>(front: seq<T>, layout: L, palettes: seq<P>, j: nat, f: (L, P) -> T)
    requires j < |palettes|
    ensures front + Row(layout, palettes[..j + 1], f) == (front + Row(layout, palettes[..j], f)) + [f(layout, palettes[j])]
  {
    assert palettes[..j + 1][..j] == palettes[..j];
  }

  /** One more layout extends the cross product by its full row. */
  lemma CrossStep<L, P, T>(layouts: seq<L>, palettes: seq<P>, i: nat, f: (L, P) -> T)
    requires i < |layouts|
    ensures Cross(layouts[..i + 1], palettes, f) == Cross(layouts[..i], palettes, f) + Row(layouts[i], palettes[..|palettes|], f)
  {
    assert layouts[..i + 1][..i] == layouts[..i];
    assert palettes[..|palettes|] == palettes;
  }

  /** `DESIGN_TEMPLATES` */
  const DESIGN_TEMPLATES: seq<DesignTemplate> := Templates(LAYOUTS, PALETTES)

  // ---------------------------------------------------------------------------
  // Distinct ids

  predicate LayoutIdsSeparable(layouts: seq<LayoutDef>) {
    (forall i :: 0 <= i < |layouts| ==> '-' !in layouts[i].id)
    && (forall i, j :: 0 <= i < j < |layouts| ==> layouts[i].id != layouts[j].id)
  }

  predicate SlugsDistinct(palettes: seq<PaletteDef>) {
    forall i, j :: 0 <= i < j < |palettes| ==> Slug(palettes[i].name) != Slug(palettes[j].name)
  }

  /** Every index of the cross product is Offset(i, p) + j for one layout i and one palette j. */
  lemma {:induction false} IndexSplit(k: nat, p: nat, n: nat) returns (i: nat, j: nat)
    requires k < Offset(n, p)
    ensures i < n && j < p && k == Offset(i, p) + j
  {
    if k < Offset(n - 1, p) {
      i, j := IndexSplit(k, p, n - 1);
    } else {
      i, j := n - 1, k - Offset(n - 1, p);
    }
  }

  /** Two different indices of the cross product name two different (layout, palette) pairs. */
  lemma CrossIndices<L, P, T>(layouts: seq<L>, palettes: seq<P>, f: (L, P) -> T, a: nat, b: nat)
    returns (i1: nat, j1: nat, i2: nat, j2: nat)
    requires a < b < |Cross(layouts, palettes, f)|
    ensures i1 < |layouts| && j1 < |palettes| && i2 < |layouts| && j2 < |palettes|
    ensures i1 != i2 || j1 != j2
    ensures Cross(layouts, palettes, f)[a] == f(layouts[i1], palettes[j1])
    ensures Cross(layouts, palettes, f)[b] == f(layouts[i2], palettes[j2])
  {
    var n, p := |layouts|, |palettes|;
    CrossLength(layouts, palettes, f);
    i1, j1 := IndexSplit(a, p, n);
    i2, j2 := IndexSplit(b, p, n);
    CrossAt(layouts, palettes, f, i1, j1);
    CrossAt(layouts, palettes, f, i2, j2);
  }

  /** Templates at two different indices have different ids. */
  lemma TemplateIdsDiffer(layouts: seq<LayoutDef>, palettes: seq<PaletteDef>, a: nat, b: nat)
    requires LayoutIdsSeparable(layouts) && SlugsDistinct(palettes)
    requires a < b < |Templates(layouts, palettes)|
    ensures Templates(layouts, palettes)[a].id != Templates(layouts, palettes)[b].id
  {
    var i1, j1, i2, j2 := CrossIndices(layouts, palettes, Combine, a, b);
    var l1, p1, l2, p2 := layouts[i1], palettes[j1], layouts[i2], palettes[j2];
    if i1 != i2 {
      assert l1.id != l2.id;
    } else {
      assert Slug(p1.name) != Slug(p2.name);
    }
    CombineIdsApart(l1, p1, l2, p2);
  }

  /** With distinct, '-'-free layout ids and distinct slugs, all template ids differ. */
  lemma TemplateIdsDistinct(layouts: seq<LayoutDef>, palettes: seq<PaletteDef>)
    requires LayoutIdsSeparable(layouts) && SlugsDistinct(palettes)
    ensures var ts := Templates(layouts, palettes);
      forall a, b :: 0 <= a < b < |ts| ==> ts[a].id != ts[b].id
  {
    var ts := Templates(layouts, palettes);
    CrossLength(layouts, palettes, Combine);
    forall a, b | 0 <= a < b < |ts| ensures ts[a].id != ts[b].id {
      TemplateIdsDiffer(layouts, palettes, a, b);
    }
  }

  /** A name that opens with a capital and a small letter, as every palette name does. */
  predicate Capitalised(name: string) {
    |name| >= 2 && 'A' <= name[0] <= 'Z' && 'a' <= name[1] <= 'z'
  }

  /** The slug of a capitalised name opens with its first two letters in lower case. */
  lemma SlugOpening(name: string)
    requires Capitalised(name)
    ensures |Slug(name)| >= 2
    ensures Slug(name)[0] == LowerChar(name[0]) && Slug(name)[1] == LowerChar(name[1])
  {
    var lower := LowerAscii(name);
    assert !IsWhitespace(lower[0]) && !IsWhitespace(lower[1]);
    assert lower[1..][0] == lower[1];
    var rest := CollapseWhitespace(lower[1..][1..], ['-']);
    assert CollapseWhitespace(lower[1..], ['-']) == [lower[1]] + rest;
    assert Slug(name) == [lower[0]] + ([lower[1]] + rest);
  }

  /** The key of a capitalised name: its first two letters as one number. */
  function Opening(name: string): int
    requires |name| >= 2
  {
    name[0] as int * 128 + name[1] as int
  }

  /** Which palette opens with a given pair of letters (-1 for none). */
  function PaletteOfOpening(key: int): int {
    if key == 10607 then 0 // Ro
    else if key == 8941 then 1 // Em
    else if key == 8690 then 2 // Cr
    else if key == 8429 then 3 // Am
    else if key == 10741 then 4 // Su
    else if key == 10853 then 5 // Te
    else if key == 8697 then 6 // Cy
    else if key == 9953 then 7 // Ma
    else if key == 9199 then 8 // Go
    else if key == 10732 then 9 // Sl
    else if key == 9454 then 10 // In
    else if key == 9833 then 11 // Li
    else if key == 9077 then 12 // Fu
    else if key == 8562 then 13 // Br
    else if key == 9961 then 14 // Mi
    else -1
  }

  /**
   * Every palette name is capitalised, and each palette is found again from
   * its opening letters, so no two palettes share them (checked in four quarters).
   */
  lemma PaletteNamesFirstQuarter()
    ensures forall i :: 0 <= i < 4 ==>
      Capitalised(PALETTES[i].name) && PaletteOfOpening(Opening(PALETTES[i].name)) == i
  {
  }

  lemma PaletteNamesSecondQuarter()
    ensures forall i :: 4 <= i < 8 ==>
      Capitalised(PALETTES[i].name) && PaletteOfOpening(Opening(PALETTES[i].name)) == i
  {
  }

  lemma PaletteNamesThirdQuarter()
    ensures forall i :: 8 <= i < 12 ==>
      Capitalised(PALETTES[i].name) && PaletteOfOpening(Opening(PALETTES[i].name)) == i
  {
  }

  lemma PaletteNamesLastQuarter()
    ensures forall i :: 12 <= i < |PALETTES| ==>
      Capitalised(PALETTES[i].name) && PaletteOfOpening(Opening(PALETTES[i].name)) == i
  {
  }

  lemma PaletteSlugsDistinct()
    ensures SlugsDistinct(PALETTES)
  {
    PaletteNamesFirstQuarter();
    PaletteNamesSecondQuarter();
    PaletteNamesThirdQuarter();
    PaletteNamesLastQuarter();
    OpeningsTellApart(PALETTES);
  }

  /** Capitalised names, each found again from its opening letters, have distinct slugs. */
  lemma OpeningsTellApart(palettes: seq<PaletteDef>)
    requires forall i :: 0 <= i < |palettes| ==>
      Capitalised(palettes[i].name) && PaletteOfOpening(Opening(palettes[i].name)) == i
    ensures SlugsDistinct(palettes)
  {
    forall i, j | 0 <= i < j < |palettes|
      ensures Slug(palettes[i].name) != Slug(palettes[j].name)
    {
      var a, b := palettes[i].name, palettes[j].name;
      SlugOpening(a);
      SlugOpening(b);
      assert Opening(a) != Opening(b);
    }
  }

  /** Which layout id opens with a given pair of letters (-1 for none). */
  function LayoutOfOpening(key: int): int {
    if key == 12780 then 0 // cl
    else if key == 12773 then 1 // ce
    else if key == 14063 then 2 // mo
    else if key == 14057 then 3 // mi
    else if key == 12783 then 4 // co
    else if key == 13036 then 5 // el
    else if key == 14949 then 6 // te
    else if key == 14177 then 7 // na
    else if key == 13285 then 8 // ge
    else if key == 15329 then 9 // wa
    else -1
  }

  /** No layout id contains '-'. */
  lemma LayoutIdsHyphenFree()
    ensures forall i :: 0 <= i < |LAYOUTS| ==> '-' !in LAYOUTS[i].id
  {
  }

  /** Each layout is found again from the opening letters of its id. */
  lemma LayoutIdsOpenings()
    ensures forall i :: 0 <= i < |LAYOUTS| ==>
      |LAYOUTS[i].id| >= 2 && LayoutOfOpening(Opening(LAYOUTS[i].id)) == i
  {
  }

  lemma LayoutIdsOk()
    ensures LayoutIdsSeparable(LAYOUTS)
  {
    LayoutIdsHyphenFree();
    LayoutIdsOpenings();
    forall i, j | 0 <= i < j < |LAYOUTS|
      ensures LAYOUTS[i].id != LAYOUTS[j].id
    {
      assert LayoutOfOpening(Opening(LAYOUTS[i].id)) != LayoutOfOpening(Opening(LAYOUTS[j].id));
    }
  }

  /** The catalogue has 10 * 15 = 150 templates. */
  lemma CatalogueSize()
    ensures |DESIGN_TEMPLATES| == 150
  {
    CrossLength(LAYOUTS, PALETTES, Combine);
    OffsetIsProduct(10, 15);
  }

  /** The catalogue is layout-major: index i * 15 + j pairs layout i with palette j. */
  lemma CatalogueAt(i: nat, j: nat)
    requires i < |LAYOUTS| && j < |PALETTES|
    ensures i * 15 + j < |DESIGN_TEMPLATES|
    ensures DESIGN_TEMPLATES[i * 15 + j] == Combine(LAYOUTS[i], PALETTES[j])
  {
    CrossAtProduct(LAYOUTS, PALETTES, Combine, i, j);
  }

  /** The ids of the catalogue are pairwise distinct. */
  lemma CatalogueIdsDistinct()
    ensures forall a, b :: 0 <= a < b < |DESIGN_TEMPLATES| ==>
      DESIGN_TEMPLATES[a].id != DESIGN_TEMPLATES[b].id
  {
    LayoutIdsOk();
    PaletteSlugsDistinct();
    TemplateIdsDistinct(LAYOUTS, PALETTES);
  }

  /** The slug of a two-word name is the two words in lower case joined by '-'. */
  lemma SlugOfTwoWords(first: string, second: string)
    requires NoWhitespace(first) && NoWhitespace(second) && |second| > 0
    ensures Slug(first + [' '] + second) == LowerAscii(first) + ['-'] + LowerAscii(second)
  {
    LowerOfTwoWords(first, second);
    LowerKeepsClean(first);
    LowerKeepsClean(second);
    CollapseTwoWords(LowerAscii(first), LowerAscii(second), ['-']);
  }

  /** A palette named by two words gives the id `<layout>-<first>-<second>`, lower-cased. */
  lemma CombineIdOfTwoWords(layout: LayoutDef, palette: PaletteDef, first: string, second: string)
    requires palette.name == first + [' '] + second
    requires NoWhitespace(first) && NoWhitespace(second) && |second| > 0
    ensures Combine(layout, palette).id == layout.id + ['-'] + (LowerAscii(first) + ['-'] + LowerAscii(second))
  {
    SlugOfTwoWords(first, second);
  }

  /** The words of the first palette's name, and the first template's id spelled out. */
  lemma RoyalBlueWords()
    ensures "Royal Blue" == "Royal" + [' '] + "Blue"
    ensures NoWhitespace("Royal") && NoWhitespace("Blue")
    ensures LowerAscii("Royal") == "royal" && LowerAscii("Blue") == "blue"
    ensures "classic" + ['-'] + ("royal" + ['-'] + "blue") == "classic-royal-blue"
  {
    RoyalBlueSplit();
    RoyalBlueLower();
    ClassicRoyalBlueId();
  }

  lemma RoyalBlueSplit()
    ensures "Royal Blue" == "Royal" + [' '] + "Blue"
    ensures NoWhitespace("Royal") && NoWhitespace("Blue")
  {
  }

  lemma RoyalBlueLower()
    ensures LowerAscii("Royal") == "royal" && LowerAscii("Blue") == "blue"
  {
  }

  lemma ClassicRoyalBlueId()
    ensures "classic" + ['-'] + ("royal" + ['-'] + "blue") == "classic-royal-blue"
  {
  }

  /** The first template is the classic layout in Royal Blue. */
  lemma FirstTemplate()
    ensures |DESIGN_TEMPLATES| > 0 && DESIGN_TEMPLATES[0].id == "classic-royal-blue"
  {
    CatalogueAt(0, 0);
    var layout, palette := LAYOUTS[0], PALETTES[0];
    assert layout.id == "classic" && palette.name == "Royal Blue";
    RoyalBlueWords();
    CombineIdOfTwoWords(layout, palette, "Royal", "Blue");
  }

  // ---------------------------------------------------------------------------
  // Lookup

  /** `templates.find(d => d.id === id)` */
  function FindById(templates: seq<DesignTemplate>, id: string): (r: Option<DesignTemplate>)
    ensures r.Some? ==> r.value in templates && r.value.id == id
    ensures r.None? <==> forall k :: 0 <= k < |templates| ==> templates[k].id != id
  {
    if |templates| == 0 then None
    else if templates[0].id == id then Some(templates[0])
    else FindById(templates[1..], id)
  }

  /** `find` returns the first entry carrying the id. */
  lemma {:induction false} FindByIdFirst(templates: seq<DesignTemplate>, k: nat)
    requires k < |templates|
    requires forall m :: 0 <= m < k ==> templates[m].id != templates[k].id
    ensures FindById(templates, templates[k].id) == Some(templates[k])
  {
    if k > 0 {
      FindByIdFirst(templates[1..], k - 1);
    }
  }

  /** `getDesignById` */
  function GetDesignById(id: string): (r: Option<DesignTemplate>)
    ensures r.Some? ==> r.value in DESIGN_TEMPLATES && r.value.id == id
  {
    FindById(DESIGN_TEMPLATES, id)
  }

  /** Looking up the id of any generated template gives back that template. */
  lemma GetDesignByIdOfTemplate(k: nat)
    requires k < |DESIGN_TEMPLATES|
    ensures GetDesignById(DESIGN_TEMPLATES[k].id) == Some(DESIGN_TEMPLATES[k])
  {
    CatalogueIdsDistinct();
    FindByIdFirst(DESIGN_TEMPLATES, k);
  }
}
