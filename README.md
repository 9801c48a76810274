# Peso AI: a Dafny model of its deterministic core

Peso AI is a React web application for Arabic-speaking students. It writes
assignments, reports, quiz and worksheet solutions, and PowerPoint decks with
Google's Gemini models. It keeps accounts, credits, free trials and
subscription requests in a hosted database. This project models, and proves
properties of, the logic that sits between those outside services:

- the Gemini wrapper (`Gemini`): the API-key pool, the rotation cursor, the
  retry loop that sorts errors into quota, overload and other, and the MIME
  fallback for uploads;
- the design tables (`DesignTemplates`, `PptDesigns`): the 150 Word/PDF
  designs built as a layout × palette cross product, and the 33 PowerPoint
  designs with their lookups;
- the deck planning of the PowerPoint export (`PptService`, `Color`) and the
  design preview card (`PreviewCard`): the YIQ dark-colour test, the slide
  plan, the team columns, layout choice, decoration and header branches, and
  the file name;
- the five generator pages (`AssignmentPage`, `ReportPage`, `QuizPage`,
  `SheetPage`, `PresentationPage`, with `Generation` for what they share): the
  form checks, the trial check and the credit guard in their order, the
  progress stage, the download names, the team list, and the cleanup of the
  model's JSON reply;
- the line classifiers that lay out generated text (`Blocks`) and the capped
  picture lists (`ImageSelection`);
- the progress indicator (`Progress`);
- the plain-text to Word-HTML export (`WordExport`);
- the account rules (`Auth`, `App`, `Admin`): credit deduction, one-shot
  trials, the route guard and path mapping, and the approval of subscription
  requests, all over an in-memory profile store.

`Common` holds `Option` and `Result`; `Text` holds the string helpers
(JavaScript's white space, `trim`, splitting, joining, prefix and suffix tests,
ASCII lower-casing).

Pure code is modelled as functions with lemmas. Code that changes state in
place is modelled as classes: the key rotator, the picture picker, the team
form, each page, the account store and the admin dashboard. The retry loop is
a method with a `while` loop proved equal to a recursive specification.

## Model

| member | source | states |
|---|---|---|
| Gemini.DropEmpty | services/geminiService.ts:5 | a value is kept iff it is one of the pieces and is not empty |
| Gemini.DropEmptyOfOne | services/geminiService.ts:5 | one piece is dropped exactly when it is empty, and kept as it is otherwise |
| Gemini.DropEmptyConcat | services/geminiService.ts:5 | filtering works piece by piece, so the kept pieces stay in their input order |
| Gemini.TrimPieces | services/geminiService.ts:5 | one piece out per piece in, each the trimmed piece |
| Gemini.ParseKeys | services/geminiService.ts:5 | the pool: the setting split at commas, each piece trimmed, empty pieces dropped; its keys are clean (Gemini.ParsedKeysClean) and a joined pool parses back (Gemini.ParseKeysOfJoin) |
| Gemini.ParsedKeysClean | services/geminiService.ts:5 | every pooled key is non-empty, trimmed and free of commas |
| Gemini.ParseKeysOfJoin | services/geminiService.ts:5 | parsing a comma-joined pool of clean keys gives back the same pool in the same order |
| Gemini.KeyAt | services/geminiService.ts:8-14 | the key handed to the client is a pooled key whenever the pool is non-empty |
| Gemini.KeyRotator.constructor | services/geminiService.ts:5-6 | the pool is the parsed setting and the cursor starts at 0 |
| Gemini.KeyRotator.CurrentKey | services/geminiService.ts:8-14 | the empty key for an empty pool, otherwise the key at the cursor |
| Gemini.KeyRotator.RotateKey | services/geminiService.ts:16-22 | rotates iff the pool holds more than one key; the cursor then moves one place cyclically, otherwise it is unchanged; the cursor stays in range |
| Gemini.Decide | services/geminiService.ts:31-58 | a reply stops with that value; a quota error rotates and retries with more than one key and stops with the daily-limit error with at most one; an overload that is not a quota error retries on the same key; any other error stops and is rethrown; a quota retry advances the cursor cyclically, an overload retry keeps it |
| Gemini.IsQuota | services/geminiService.ts:39 | the quota test: the message mentions 429 or RESOURCE_EXHAUSTED, or the status is 429; Gemini.Decide states what follows from it |
| Gemini.IsOverload | services/geminiService.ts:51 | the overload test: the message mentions 503 or overloaded, or the status is 503; it is only reached when the quota test failed |
| Gemini.Run | services/geminiService.ts:25-63 | the cursor stays in range and no run makes more than 3·N+3 calls |
| Gemini.KeyRotator.ExecuteWithRetry | services/geminiService.ts:25-63 | the loop returns or throws exactly what `Run` gives from the current cursor and leaves the cursor where `Run` does |
| Gemini.RetryEnds | services/geminiService.ts:25-63 | after a retried call, the rest of the run still ends with the whole run's result and cursor |
| Gemini.RunRetriesBeforeLast | services/geminiService.ts:30-59 | every call but the last failed with an error the loop retries |
| Gemini.RunSucceedsOnFirstOk | services/geminiService.ts:31-33 | a run succeeds iff its last call succeeded, and it returns that call's value unchanged |
| Gemini.RunRethrowsLastError | services/geminiService.ts:31-58 | a rethrown error is the last call's error, and it is neither a quota nor an overload error; conversely, a first call that fails with any other error ends the run at once, rethrowing it after that one call |
| Gemini.RunGivesUp | services/geminiService.ts:28-62 | the attempts-exhausted error comes only after 3·N+3 calls; the daily-limit error only from a quota error with at most one key; conversely, with at most one key a first quota error ends the run with the daily-limit error after that one call |
| Gemini.RunDailyLimitAtOnce | services/geminiService.ts:39-47 | a quota error with at most one key stops the run at once with the daily-limit error and the cursor unchanged |
| Gemini.RunRethrowsAtOnce | services/geminiService.ts:57-58 | an error that is neither quota nor overload stops the run at once, rethrown, with the cursor unchanged |
| Gemini.Rotated | services/geminiService.ts:16-22 | the key i places after the cursor, cyclically; it is always a pooled key |
| Gemini.RunQuotaThenOk | services/geminiService.ts:31-44 | with two or more keys, k quota errors on the keys from the cursor on and then a reply give that reply after k + 1 calls, the i-th call using the key i places after the cursor, and leave the cursor k places on |
| Gemini.QuotaShift | services/geminiService.ts:31-44 | after one quota error, the remaining quota errors and the reply fall on the keys counted from the next cursor |
| Gemini.QuotaCombine | services/geminiService.ts:31-44 | a quota error on the key at the cursor, followed by the run from the next cursor, is the run from this cursor with one more call in front |
| Gemini.RotatedFirst | services/geminiService.ts:16-22 | the key no places after the cursor is the key at the cursor |
| Gemini.RotatedNext | services/geminiService.ts:16-22 | the key i places after the next cursor is the key i + 1 places after this one |
| Gemini.RotatedCalls | services/geminiService.ts:31-44 | the key at the cursor followed by the keys from the next cursor on are the keys from this cursor on |
| Gemini.RunOverloadThenOk | services/geminiService.ts:31-55 | k overload errors and then a reply give that reply after k + 1 calls, all with the key at the cursor, and leave the cursor where it was |
| Gemini.ExhaustedIsNotDailyLimit | services/geminiService.ts:46-62 | the two errors the loop builds never coincide |
| Gemini.SmallPoolKeepsKey | services/geminiService.ts:16-17 | with at most one key the cursor never moves and every call uses the same key |
| Gemini.LargePoolNeverDailyLimit | services/geminiService.ts:39-47 | with two or more keys a run never ends in the daily-limit error |
| Gemini.AllQuotaRotates | services/geminiService.ts:16-62 | with two or more keys and quota errors only, the keys are used round-robin from the cursor, every attempt is spent, and the run ends in the attempts-exhausted error |
| Gemini.AllOverloadWaits | services/geminiService.ts:50-62 | with overload errors only, every attempt uses the same key, the cursor is unchanged, and the run ends in the attempts-exhausted error |
| Gemini.RotationScenario | services/geminiService.ts:39-44 | three keys, two quota errors then a reply: the reply read with the third key is returned |
| Gemini.MimeType | services/geminiService.ts:79-91 | a reported type is returned as it is; otherwise the result is one of the five known types |
| Gemini.MimeForExtension | services/geminiService.ts:83-90 | the table: jpg and jpeg, png, gif, webp and pdf give their types, anything else image/jpeg; Gemini.MimeTypeOfExtension ties it to `getMimeType` |
| Gemini.LastExtension | services/geminiService.ts:82 | the lower-cased text after the last '.', or the whole name without one (Gemini.LastExtensionAfterDot, Gemini.MimeTypeWithoutDot) |
| Gemini.LastExtensionAfterDot | services/geminiService.ts:82 | the extension of `stem.ext` is `ext` lower-cased |
| Gemini.MimeTypeOfExtension | services/geminiService.ts:82-90 | without a reported type the guess is the table entry for the lower-cased text after the last '.' |
| Gemini.MimeTypeWithoutDot | services/geminiService.ts:82-90 | a name without '.' is looked up in full as an extension |
| Gemini.ReplyText | services/geminiService.ts:104 | a non-empty reply text is returned as it is; a missing or empty one gives the fallback; so the result is never empty with a non-empty fallback |
| Gemini.ReplyTextIdempotent | services/geminiService.ts:104 | feeding the result back as the reply text gives the same result |
| Color.Hex | services/pptService.ts:24 | text without '#' is unchanged; otherwise the first '#' (the one with no '#' before it) is removed and every other character kept in order |
| Color.HexAt | services/pptService.ts:24 | the '#' at a position with no '#' before it is the one removed: the result is the text before it followed by the text after it |
| Color.HexOfPrefixed | services/pptService.ts:24 | removing the '#' from '#' followed by any text gives that text back |
| Color.Substring | services/pptService.ts:29-31 | `substring` with bounds in order is the slice, and never longer than the text |
| Color.HexRun | services/pptService.ts:29-31 | `parseInt` reads the longest run of leading hex digits |
| Color.HexValueBound | services/pptService.ts:29-31 | two hex digits read as a value below 256 |
| Color.ParseHexOfDigits | services/pptService.ts:29-31 | a non-empty string of hex digits parses to its value |
| Color.ParseHexOfEmpty | services/pptService.ts:29-31 | an empty channel, as in a short colour, reads as NaN |
| Color.ParseHex | services/pptService.ts:29-31 | `parseInt(_, 16)`: leading white space, one sign and a 0x prefix are skipped, the longest run of hex digits is read, and no digit at all is NaN; Color.ParseHexOfDigits and Color.ParseHexOfEmpty state its two cases |
| Color.Channel | services/pptService.ts:28-31 | the channel `isDarkColor` reads at k: characters k and k + 1 after the '#' parsed as hex |
| Color.ChannelValue | services/pptService.ts:29-31 | the two digits at k after the '#' of a '#rrggbb' colour are a value between 0 and 255 |
| Color.ChannelParses | services/pptService.ts:28-31 | on a '#rrggbb' colour the channel at k parses to the value of its two digits |
| Color.Brightness | services/pptService.ts:33 | the YIQ brightness (times 1000) of the three channel values of a '#rrggbb' colour lies between 0 and 255000 |
| Color.DarkIffDim | services/pptService.ts:27-35 | on a '#rrggbb' colour, `isDarkColor` holds iff 299r + 587g + 114b < 128000 |
| Color.IsDarkColor | services/pptService.ts:27-35 | `isDarkColor`: three channels read as numbers, YIQ brightness below 128, and false when a channel is NaN; Color.DarkIffDim states it on '#rrggbb' colours |
| Color.HexOfHexColor | services/pptService.ts:24 | `hex` of a '#rrggbb' colour is its six digits, and putting the '#' back gives the colour |
| DesignTemplates.CombineIdParts | utils/designTemplates.tsx:300 | a template id reads back: before its first '-' is the layout id, after it the palette slug |
| DesignTemplates.CombineIdsApart | utils/designTemplates.tsx:300 | two (layout, palette) pairs that differ in layout id or in palette slug give different ids |
| DesignTemplates.Slug | utils/designTemplates.tsx:300 | the palette name lower-cased with each run of white space turned into '-' (DesignTemplates.SlugOpening, DesignTemplates.SlugOfTwoWords) |
| DesignTemplates.Combine | utils/designTemplates.tsx:299-309 | the template pushed for one layout and one palette: id, names, header layout and colours (DesignTemplates.CombineIdParts, DesignTemplates.CombineIdsApart) |
| DesignTemplates.Row | utils/designTemplates.tsx:299-309 | one layout's templates, one per palette, in palette order |
| DesignTemplates.CrossLength | utils/designTemplates.tsx:298-310 | the nested loops push as many templates as there are layouts times palettes |
| DesignTemplates.CrossAt | utils/designTemplates.tsx:298-310 | the entry at row offset i·p + j is the template of layout i and palette j |
| DesignTemplates.CrossAtProduct | utils/designTemplates.tsx:298-310 | the same, with the index written as the product i·p + j |
| DesignTemplates.GenerateTemplates | utils/designTemplates.tsx:295-313 | the nested loops build exactly the layout-major cross product `Templates` |
| DesignTemplates.RowStep | utils/designTemplates.tsx:300-309 | pushing the combination with palette j extends the row by exactly that entry |
| DesignTemplates.CrossStep | utils/designTemplates.tsx:298-310 | finishing the row of layout i extends the cross product by that row |
| DesignTemplates.Templates | utils/designTemplates.tsx:295-313 | the layout-major cross product of layouts and palettes through `Combine` (DesignTemplates.CrossLength, DesignTemplates.CrossAt) |
| DesignTemplates.CrossIndices | utils/designTemplates.tsx:298-310 | two different positions of the cross product come from two different (layout, palette) pairs |
| DesignTemplates.TemplateIdsDiffer | utils/designTemplates.tsx:300 | with distinct '-'-free layout ids and distinct slugs, templates at two positions have different ids |
| DesignTemplates.TemplateIdsDistinct | utils/designTemplates.tsx:300 | under the same conditions all template ids are pairwise distinct |
| DesignTemplates.SlugOpening | utils/designTemplates.tsx:300 | the slug of a capitalised name opens with its first two letters lower-cased |
| DesignTemplates.PaletteNamesFirstQuarter | utils/designTemplates.tsx:52-278 | palettes 0-3 are capitalised and told apart by their first two letters |
| DesignTemplates.PaletteNamesSecondQuarter | utils/designTemplates.tsx:52-278 | palettes 4-7 are capitalised and told apart by their first two letters |
| DesignTemplates.PaletteNamesThirdQuarter | utils/designTemplates.tsx:52-278 | palettes 8-11 are capitalised and told apart by their first two letters |
| DesignTemplates.PaletteNamesLastQuarter | utils/designTemplates.tsx:52-278 | palettes 12-14 are capitalised and told apart by their first two letters |
| DesignTemplates.PaletteSlugsDistinct | utils/designTemplates.tsx:52-278 | the fifteen palette slugs are pairwise distinct |
| DesignTemplates.OpeningsTellApart | utils/designTemplates.tsx:52-278 | in any table of capitalised names, each found again from its first two letters, no two slugs are equal |
| DesignTemplates.LayoutIdsHyphenFree | utils/designTemplates.tsx:281-292 | no layout id contains '-' |
| DesignTemplates.LayoutIdsOpenings | utils/designTemplates.tsx:281-292 | each layout is found again from the first two letters of its id |
| DesignTemplates.LayoutIdsOk | utils/designTemplates.tsx:281-292 | the ten layout ids are '-'-free and pairwise distinct |
| DesignTemplates.CatalogueSize | utils/designTemplates.tsx:316 | the catalogue holds 10 · 15 = 150 templates |
| DesignTemplates.CatalogueAt | utils/designTemplates.tsx:298-308 | the catalogue is layout-major: entry i·15 + j pairs layout i with palette j (id, name, Arabic name, header layout and colours as combined) |
| DesignTemplates.CatalogueIdsDistinct | utils/designTemplates.tsx:300-316 | the 150 ids are pairwise distinct |
| DesignTemplates.SlugOfTwoWords | utils/designTemplates.tsx:300 | the slug of a two-word name is the two words lower-cased joined by '-' |
| DesignTemplates.CombineIdOfTwoWords | utils/designTemplates.tsx:300 | a two-word palette gives the id `<layout>-<first>-<second>` lower-cased |
| DesignTemplates.FirstTemplate | utils/designTemplates.tsx:282-300 | the first template's id is 'classic-royal-blue' |
| DesignTemplates.FindById | utils/designTemplates.tsx:325 | a found template carries the id and is in the list; nothing is found iff no entry carries it |
| DesignTemplates.FindByIdFirst | utils/designTemplates.tsx:325 | `find` returns the first entry with the id |
| DesignTemplates.GetDesignById | utils/designTemplates.tsx:324-326 | a found design is a catalogue entry with that id |
| DesignTemplates.GetDesignByIdOfTemplate | utils/designTemplates.tsx:324-326 | looking up any catalogue entry's id gives back that entry |
| PptDesigns.TechAndBusinessOk | services/pptDesigns.ts:56-58 | the three Tech and Professional designs have hex colours, a listed category and an id keyed to their own place |
| PptDesigns.AcademicOk | services/pptDesigns.ts:61-70 | the same check holds for the ten academic designs at places 3-12 |
| PptDesigns.LuxuryOk | services/pptDesigns.ts:73-82 | the same check holds for the ten luxury designs at places 13-22 |
| PptDesigns.CreativeOk | services/pptDesigns.ts:85-94 | the same check holds for the ten creative designs at places 23-32 |
| PptDesigns.SectionOkConcat | services/pptDesigns.ts:52-95 | two checked runs of the table, one after the other, make a checked run |
| PptDesigns.TableOk | services/pptDesigns.ts:52-95 | the table has 33 entries and every one passes the check at its own place |
| PptDesigns.TableIdsDistinct | services/pptDesigns.ts:52-95 | the 33 ids are pairwise distinct |
| PptDesigns.DesignOfKey | services/pptDesigns.ts:52-95 | the place of the design whose id opens with given three letters; PptDesigns.TableIdsDistinct uses it to tell the 33 ids apart |
| PptDesigns.TableCategoriesKnown | services/pptDesigns.ts:52-100 | every design's category is in `PPT_CATEGORIES` |
| PptDesigns.TableColorsHex | services/pptDesigns.ts:52-95 | every colour of every design is '#' and six hex digits, so `isDarkColor` reads three real channels |
| PptDesigns.FirstDesign | services/pptDesigns.ts:56 | the first entry, the presentation page's default, is 'cyber-neon' |
| PptDesigns.FindById | services/pptDesigns.ts:97 | a found design carries the id and is in the list; nothing is found iff no entry carries it |
| PptDesigns.FindByIdFirst | services/pptDesigns.ts:97 | `find` returns the first entry with the id |
| PptDesigns.GetDesignById | services/pptDesigns.ts:97 | a found design is a table entry with that id; undefined iff no entry has it |
| PptDesigns.GetDesignByIdOfDesign | services/pptDesigns.ts:97 | looking up any entry's id gives back that entry |
| PptDesigns.FilterByCategory | services/pptDesigns.ts:99 | the result holds exactly the designs of that category and is no longer than the list |
| PptDesigns.FilterConcat | services/pptDesigns.ts:99 | filtering works piece by piece, so the selection keeps table order |
| PptDesigns.GetDesignsByCategory | services/pptDesigns.ts:99 | the selection holds exactly the table's designs of that category |
| PptDesigns.FilterNoneMatch | services/pptDesigns.ts:99 | a category no design has selects nothing |
| PptDesigns.UnknownCategoryEmpty | services/pptDesigns.ts:99-100 | a category outside `PPT_CATEGORIES` selects no design |
| PptDesigns.CategoriesUsed | services/pptDesigns.ts:99-100 | each of the five categories selects at least one design |
| PptDesigns.CategoriesPartition | services/pptDesigns.ts:99-100 | with distinct categories covering every design, the per-category selections together hold every design once |
| PptDesigns.TableCategoriesPartition | services/pptDesigns.ts:52-100 | the five category selections of the table together hold all 33 designs |
| PptService.TextColorsFollowBrightness | services/pptService.ts:100-358 | for '#rrggbb' colours the title, sub-title and footer texts turn white/light grey exactly when their background's YIQ brightness is below 128, and the bullets use the design's text colour otherwise |
| PptService.TextColorsAreSixHex | services/pptService.ts:100-358 | every text colour handed to the slide library is six hex digits when the design colours are '#rrggbb' |
| PptService.HexIsSixHex | services/pptService.ts:24 | stripping the '#' from a '#rrggbb' colour leaves six hex digits |
| PptService.DecorationFollowsRules | services/pptService.ts:49-94 | the `if`/`else if` chain of decorations is the ordered rule table read top to bottom, the first matching rule winning |
| PptService.RuleAt | services/pptService.ts:49-94 | at rule i, the styles either select that rule's decoration or the search goes on at rule i + 1 |
| PptService.NoDecorationIff | services/pptService.ts:49-94 | a design gets no decoration exactly when neither its shape style nor its layout style has a rule |
| PptService.DecorationOf | services/pptService.ts:49-94 | the `if`/`else if` chain that picks the decoration from the shape and layout styles; PptService.DecorationFollowsRules and PptService.NoDecorationIff state it |
| PptService.Repeat | services/pptService.ts:56-58 | n copies of one shape |
| PptService.DotsOnlyForDots | services/pptService.ts:49-59 | eight shapes (three circles and five dots) are drawn exactly for the 'dots' shape style; other circle designs get three |
| PptService.TechLineOnlyForTech | services/pptService.ts:65-73 | the hexagon decoration has a bar, four hexagons and, only for the 'tech' layout, a bottom line |
| PptService.AddDecorations | services/pptService.ts:40-95 | the branches and the loops that add the dots and hexagons produce exactly the decoration of the design |
| PptService.HeaderOf | services/pptService.ts:183-201 | a filled bar with a white title exactly for 'tech', a ruled title exactly for 'minimal', the accent bar otherwise, titles in the primary colour |
| PptService.Names | services/pptService.ts:162 | the members' names, in order |
| PptService.Columns | services/pptService.ts:159-160 | the two columns concatenate to the team, the first holding ceil(n/2) members |
| PptService.TwoColumnsIff | services/pptService.ts:159-169 | the title slide uses two name columns exactly when there are at least two members |
| PptService.CollegeLine | services/pptService.ts:141-145 | the college line is shown exactly when there is a college or a department, starting with the college and ending with a bar and the department when there is one |
| PptService.SupervisorLine | services/pptService.ts:172-177 | the supervisor line is shown exactly when a name is given, as "Under Supervision of: Dr. " and the name |
| PptService.ChartKindRoundTrip | services/pptService.ts:271-273 | 'pie' and 'line' select those charts, and every other type name a bar chart |
| PptService.ChartKindOf | services/pptService.ts:271-273 | the chart type for a type name; PptService.ChartKindRoundTrip states it |
| PptService.HasImage | services/pptService.ts:310 | a slide has an image when its index is given, inside the list, and the entry is not empty |
| PptService.LayoutOf | services/pptService.ts:250-345 | the layout branch of a content slide; PptService.LayoutChoice states when each layout is chosen |
| PptService.LayoutChoice | services/pptService.ts:250-345 | a slide with chart data shows the chart (beside the bullets when there are any), else an existing non-empty image beside the bullets, else full-width text |
| PptService.ContentSlides | services/pptService.ts:237-349 | content slide i is built from input slide i |
| PptService.ContentSlideOf | services/pptService.ts:237-349 | content slide i shows input slide i's title and bullets as page i + 1 |
| PptService.TitleSlideOf | services/pptService.ts:100-181 | the title slide: the decorations, the logos, topic, subject, college line, team block, supervisor line and main text colour of the data |
| PptService.DeckPlan | services/pptService.ts:232-360 | the slides in the order they are added: title, content slides, thank-you; PptService.DeckShape states its shape |
| PptService.FramedDeck | services/pptService.ts:232-360 | any title and thank-you slide around the content slides make a deck of that shape |
| PptService.DeckShape | services/pptService.ts:232-360 | the deck `generatePresentation` plans is the title slide, one content slide per input slide in order with its title, bullets and page number i + 1, and the thank-you slide |
| PptService.Author | services/pptService.ts:222 | the author is the first member's name, or 'Student' when there is none or it is empty |
| PptService.KeepSafe | services/pptService.ts:366 | the file-name filter keeps only letters, digits, spaces and Arabic characters, never lengthening the text |
| PptService.KeepSafeOfChar | services/pptService.ts:366 | one character is kept exactly when it is a safe character |
| PptService.KeepSafeConcat | services/pptService.ts:366 | the filter works piece by piece, so the kept characters stay in their order |
| PptService.KeepSafeCounts | services/pptService.ts:366 | every safe character occurs in the result as often as in the input, and no other character occurs |
| PptService.KeepSafeOfSafe | services/pptService.ts:366 | text made only of kept characters passes the filter unchanged |
| PptService.KeepSafeIdempotent | services/pptService.ts:366 | filtering twice is filtering once |
| PptService.SafeName | services/pptService.ts:366 | the file stem is 1 to 30 kept characters |
| PptService.SafeNameFallback | services/pptService.ts:366 | the stem is 'Presentation' exactly when the filtered, trimmed topic is empty, and its first 30 characters otherwise |
| PptService.FileName | services/pptService.ts:366-367 | the file name ends in '.pptx' and has at most 35 characters |
| PptService.GeneratePresentation | services/pptService.ts:216-368 | the metadata, the planned deck (with the loop over the input slides) and the file name are exactly those of the deck plan |
| PreviewCard.PreviewAgreesWithExport | components/DesignPreviewCard.tsx:15-146 | the card's shape-style switch picks, for every shape style, the decoration the slide export picks for a layout with no rule of its own |
| PreviewCard.Marks | components/DesignPreviewCard.tsx:30-32 | n marks of one kind and colour |
| PreviewCard.CirclesAndDotsShareBlobs | components/DesignPreviewCard.tsx:16-36 | 'circles' and 'dots' draw the same two blobs, and 'dots' adds exactly four accent dots after them |
| PreviewCard.HexagonMarks | components/DesignPreviewCard.tsx:60-82 | 'hexagons' and 'tech_grid' draw a strip and three markers, with the bottom line exactly for the 'tech' layout |
| PreviewCard.NoMarksIff | components/DesignPreviewCard.tsx:15-146 | the card draws no marks exactly for the 'mixed' and 'none' shape styles |
| PreviewCard.PreviewDecoration | components/DesignPreviewCard.tsx:15-146 | the `switch` of `renderShapes` on the shape style alone (PreviewCard.PreviewAgreesWithExport, PreviewCard.NoMarksIff) |
| PreviewCard.PreviewTitleMatchesSlide | components/DesignPreviewCard.tsx:150-151 | the card's title colour is, without its '#', the colour the exported title slide gives the team names |
| PreviewCard.PreviewSubtitleOnDark | components/DesignPreviewCard.tsx:150-152 | on a dark title background the card's subtitle colour is the export's subtitle colour |
| PreviewCard.PreviewColorsFollowBrightness | components/DesignPreviewCard.tsx:150-252 | for '#rrggbb' colours the badge text is white exactly when the accent's YIQ brightness is below 128, and the title and subtitle turn white and light grey exactly on a dim title background |
| PreviewCard.PreviewTitleColor | components/DesignPreviewCard.tsx:150-151 | white on a dark title background, the design's text colour otherwise (PreviewCard.PreviewTitleMatchesSlide) |
| PreviewCard.PreviewSubtitleColor | components/DesignPreviewCard.tsx:150-152 | light grey on a dark title background, the subtitle colour otherwise (PreviewCard.PreviewSubtitleOnDark) |
| PreviewCard.BadgeTextColor | components/DesignPreviewCard.tsx:228 | white on a dark accent, black otherwise (PreviewCard.PreviewColorsFollowBrightness) |
| ImageSelection.SelectedIffAt | pages/Assignment.tsx:319 | `some` over links holds exactly when some position of the list has the link |
| ImageSelection.SelectedAppend | pages/Assignment.tsx:327 | appending an image adds exactly its link to the picked links |
| ImageSelection.Without | pages/Assignment.tsx:321 | filtering a link out removes it, keeps every other link, leaves a list without it unchanged and shortens one with it |
| ImageSelection.WithoutConcat | pages/Assignment.tsx:321 | the filter distributes over concatenation, so the images kept stay in their order |
| ImageSelection.WithoutOne | pages/Assignment.tsx:321 | one image is kept exactly when it does not carry the link |
| ImageSelection.Toggle | pages/Assignment.tsx:317-330 | after a toggle the image is picked exactly when it was not and fewer than the cap were picked; other images are unaffected; the cap is kept; a picked image is filtered out, a new one is appended at the end, and at the cap the list is unchanged |
| ImageSelection.ToggleTwice | pages/Assignment.tsx:317-330 | picking an image and toggling it again restores the list |
| ImageSelection.WithoutLast | pages/Assignment.tsx:321 | filtering out the link just appended gives back the earlier list |
| ImageSelection.ToggleKeepsDistinct | pages/Assignment.tsx:317-330 | toggling keeps the picked links distinct |
| ImageSelection.WithoutKeepsDistinct | pages/Assignment.tsx:321 | filtering keeps the links distinct |
| ImageSelection.ToggleCandidate | pages/Assignment.tsx:266-280 | a ticked candidate is filtered out even at the cap; another is appended at the end exactly while picked and ticked images stay below the cap, which is kept; otherwise the candidates are unchanged |
| ImageSelection.Upload | pages/Assignment.tsx:65-85 | an upload is refused exactly at the cap, and otherwise appended at the end |
| ImageSelection.Loaded | pages/Assignment.tsx:299 | the images that loaded, no more than were tried |
| ImageSelection.AddBatch | pages/Assignment.tsx:299-306 | the loaded images are appended after the picked ones, and the batch counts as added exactly when any loaded |
| ImageSelection.BatchWithinCap | pages/Assignment.tsx:266-306 | candidates ticked within the cap never take the picked list over it, whichever fail to load |
| ImageSelection.ImagePicker.constructor | pages/PresentationPage.tsx:45-47 | no images picked or ticked, dialog closed |
| ImageSelection.ImagePicker.OpenDialog | pages/Assignment.tsx:236-244 | opening the search dialog clears the ticked candidates |
| ImageSelection.ImagePicker.HandleFileUpload | pages/PresentationPage.tsx:130-153 | an upload is accepted exactly below the page's cap and appended; the cap is kept |
| ImageSelection.ImagePicker.ToggleImageSelection | pages/Report.tsx:315-328 | the picked list becomes its toggle: a picked image is filtered out, a new one below the cap is appended at the end, and the cap is kept |
| ImageSelection.ImagePicker.ToggleTempImageSelection | pages/PresentationPage.tsx:183-197 | the candidates become their toggle against the picked count and the cap: a ticked one is filtered out, a new one is appended at the end while the total stays below the cap |
| ImageSelection.ImagePicker.HandleAddBatchImages | pages/PresentationPage.tsx:199-231 | nothing without candidates; otherwise the loaded ones are appended, the dialog closes exactly when any loaded, the presentation page also clears the candidates, and the cap is kept |
| ImageSelection.ImagePicker.RemoveAt | pages/PresentationPage.tsx:698 | removing position idx keeps every other picked image in order |
| ImageSelection.WithoutIndex | pages/PresentationPage.tsx:698 | every position but idx, in order |
| Blocks.AfterMarker | pages/Assignment.tsx:433-467 | the text after a heading or bullet marker is no longer than the rest of the line and starts with no white space |
| Blocks.NumberedLabel | pages/Assignment.tsx:471 | the label of a numbered line is a non-empty run of digits |
| Blocks.HasPairIffAt | pages/Assignment.tsx:452 | `includes('**')` holds exactly when '**' occurs at some position |
| Blocks.ClosingPair | pages/Assignment.tsx:453 | the lazy `(.*?)` ends at the first '**' at or after where it starts, with no line terminator before it; when there is none, every later '**' has a line terminator before it |
| Blocks.ClosingPairAfterRun | pages/Assignment.tsx:453 | after a run with no '*' and no line terminator, the closing pair is the one right after the run |
| Blocks.BoldMatch | pages/Assignment.tsx:453 | a match of the bold pattern opens and closes on '**', the closing pair after the opening one |
| Blocks.BoldMatchFirst | pages/Assignment.tsx:453 | the match found is the leftmost one, closed by the first '**' on its line, and no match is found exactly when none opens anywhere |
| Blocks.BoldMatchOpens | pages/Assignment.tsx:453 | the match found opens a match, and it closes at the first '**' on its line |
| Blocks.BoldMatchLeftmost | pages/Assignment.tsx:453 | no match opens before the one found |
| Blocks.BoldMatchNone | pages/Assignment.tsx:453 | no match is found exactly when none opens from the starting point on |
| Blocks.LeftmostMatch | pages/Assignment.tsx:453 | a match with none before it is the one found |
| Blocks.BoldMatchOfPair | pages/Assignment.tsx:453 | in a line made of a '*'-free stretch and a one-line '*'-free run between '**' pairs, the match is that run |
| Blocks.SplitBold | pages/Assignment.tsx:453 | splitting at the bold pattern gives an odd number of parts that, with the bold ones wrapped in '**' again, give back the line |
| Blocks.SplitBoldWhole | pages/Assignment.tsx:453 | a line splits into itself alone exactly when no bold match opens in it |
| Blocks.SplitBoldAt | pages/Assignment.tsx:453 | at a found match the split is the text before it, its bold text, and the split of the rest |
| Blocks.SplitBoldOfPair | pages/Assignment.tsx:453-457 | a plain stretch, a bold run and the rest split into the stretch, the bold text at the odd position shown in strong, and the split of the rest |
| Blocks.NoPairNoBold | pages/Assignment.tsx:453 | a line without '**' splits into itself alone |
| Blocks.NoPairNoMatch | pages/Assignment.tsx:453 | without '**' the pattern matches nowhere |
| Blocks.ImageMarker | pages/Assignment.tsx:481 | the number of a line that, trimmed, starts with `[IMAGE_n]` in any case; Blocks.ImageMarkerRoundTrip reads the marker back |
| Blocks.ImageMarkerRoundTrip | pages/Assignment.tsx:481 | the marker '[IMAGE_n]' is read back as n |
| Blocks.BracketedDigits | pages/Assignment.tsx:481 | `(\d+)\]` on digits and a closing bracket captures the number the digits spell |
| Blocks.MarkerOpening | pages/Assignment.tsx:481 | `[IMAGE_` in front of any text matches the marker's opening, with that text after it |
| Blocks.ImageTagBefore | pages/Assignment.tsx:481 | a seven-character opening in front of any text still matches, and the text follows it |
| Blocks.FigureOf | pages/Assignment.tsx:482-546 | marker n shows picked image n under 'Figure n' exactly when 1 <= n <= the number of picked images, else nothing |
| Blocks.SectionTitle | pages/Report.tsx:484 | the report's section title after the '##', its number and dot starts with no white space |
| Blocks.AssignmentBlock | pages/Assignment.tsx:430-554 | the Assignment page's tests in order: '# ', '## ', '### ', a bold pair, a bullet, a numbered line, an image marker, text, blank (Blocks.HeadingRoundTrip, Blocks.BreakIffBlank, Blocks.AssignmentFigure) |
| Blocks.SheetBlock | pages/Sheet.tsx:300-447 | the Sheet page's tests: the Assignment tests without the image marker (Blocks.NumberedRoundTrip) |
| Blocks.QuizBlock | pages/Quiz.tsx:244-297 | the Quiz page's tests, with bullets and numbered lines tried before a bold pair (Blocks.BoldBulletDependsOnPage) |
| Blocks.ReportBlock | pages/Report.tsx:435-636 | the Report page's tests, with '## ' headers numbered by the count of headers before them and no numbered test (Blocks.ReportHeadings, Blocks.SectionsNumberedInOrder) |
| Blocks.TrimEmptyIffBlank | pages/Assignment.tsx:549 | a line trims to nothing exactly when it is all white space |
| Blocks.BlankHasNoPair | pages/Assignment.tsx:431-470 | a blank line passes none of the marker tests |
| Blocks.BreakIffBlank | pages/Assignment.tsx:549-554 | on all four pages a line becomes a line break exactly when it is blank |
| Blocks.BlankFacts | pages/Assignment.tsx:549-554 | a line trims to nothing exactly when it is blank, and a blank line fails every marker test |
| Blocks.AssignmentBreakIffBlank | pages/Assignment.tsx:430-554 | on the Assignment page a line becomes a line break exactly when it is blank |
| Blocks.SheetBreakIffBlank | pages/Sheet.tsx:300-447 | on the Sheet page a line becomes a line break exactly when it is blank |
| Blocks.QuizBreakIffBlank | pages/Quiz.tsx:244-297 | on the Quiz page a line becomes a line break exactly when it is blank |
| Blocks.ReportBreakIffBlank | pages/Report.tsx:435-636 | on the Report page a line becomes a line break exactly when it is blank |
| Blocks.BoldBulletDependsOnPage | pages/Quiz.tsx:266-281 | a bullet line holding '**' is a bold paragraph on the assignment, report and sheet pages but a bullet on the quiz page |
| Blocks.HeadingRoundTrip | pages/Assignment.tsx:431-451 | a heading written as marker, space and text is read back as that text |
| Blocks.NumberedRoundTrip | pages/Sheet.tsx:399-428 | a line 'n. text' is numbered, with label n and text the text |
| Blocks.NumberedPrefix | pages/Sheet.tsx:399 | a run of digits followed by '. ' passes the numbered-line test |
| Blocks.MarkerLineIsPlain | pages/Assignment.tsx:431-481 | the marker line passes none of the tests made before the marker test |
| Blocks.AssignmentFigure | pages/Assignment.tsx:427-556 | on the assignment page the line '[IMAGE_n]' shows picked image n, or nothing without one |
| Blocks.MapLines | pages/Quiz.tsx:242-299 | one block per line, in order |
| Blocks.FormatAssignment | pages/Assignment.tsx:427-556 | `formatContent`: the text split at line ends and each line classified on its own, in order |
| Blocks.FormatSheet | pages/Sheet.tsx:297-448 | the same for the Sheet page's classifier |
| Blocks.FormatQuiz | pages/Quiz.tsx:242-299 | the same for the Quiz page's classifier |
| Blocks.SectionCount | pages/Report.tsx:433-456 | the number of '## ' lines, at most the number of lines |
| Blocks.ReportBlocks | pages/Report.tsx:431-638 | the block of each line is classified with the count of '## ' lines before it |
| Blocks.SectionsNumberedInOrder | pages/Report.tsx:455-484 | a report block is a section exactly for a '## ' line, numbered by the '## ' lines up to and including it |
| Blocks.ReportBlocksStep | pages/Report.tsx:431-638 | one more line adds its block, and bumps the count exactly for a '## ' line |
| Blocks.ReportHeadings | pages/Report.tsx:437-484 | '# ' lines are top headings and '## ' lines numbered sections |
| Blocks.FormatReport | pages/Report.tsx:431-638 | the loop with its running section counter produces exactly the report's blocks |
| Generation.FirstFailure | pages/Sheet.tsx:117-139 | no refusal exactly when every check passes; otherwise the refusal of a failing check all of whose predecessors pass |
| Generation.FailureShadowsLater | pages/Sheet.tsx:117-139 | a failing check after passing ones decides the refusal whatever follows it |
| Generation.DeductCall | App.tsx:74-91 | the `async` deduction handler hands the page a promise that settles to the decision |
| Generation.AsyncGuardNeverStops | pages/Assignment.tsx:151 | `if (!onDeductCredits()) return;` never stops a generation, since a promise is truthy (see Findings) |
| Generation.AwaitedGuardStopsIffRefused | pages/Assignment.tsx:151 | the awaited guard stops exactly when the deduction was refused |
| Generation.GuardsDisagreeOnRefusal | pages/Assignment.tsx:151 | on a refused deduction the guard as written proceeds and the awaited one stops |
| Generation.NextStage | pages/Assignment.tsx:165-167 | one tick of the progress timer adds one up to stage 3 and stays there |
| Generation.StageAfterCounts | pages/Assignment.tsx:165-167 | after n ticks from stage 0 the stage is min(n, 3) |
| Generation.Shown | pages/Assignment.tsx:226 | the fallback text is shown exactly when the thrown message is empty, else the message itself |
| Generation.Extension | pages/Assignment.tsx:342-365 | the extension is a dot and three letters |
| Generation.OrElse | pages/Assignment.tsx:342 | the JavaScript `or` of a value and a fallback is the value when non-empty and the fallback otherwise |
| Generation.Underscored | pages/Assignment.tsx:342 | after replacing runs of white space by '_' no white space is left |
| Generation.UnderscoredEmptyIff | pages/Assignment.tsx:342 | the replaced text is empty exactly when the text was |
| Generation.UnderscoredOfClean | pages/Assignment.tsx:342 | text without white space is kept as it is |
| Generation.FormatsShareStem | pages/Assignment.tsx:342-365 | the '.pdf' and '.doc' names of one download share their stem and differ in the extension |
| AssignmentPage.Assignment.constructor | pages/Assignment.tsx:34-60 | an empty form, no pictures (cap 3), not loading, no result, stage 0 |
| AssignmentPage.Assignment.HandleGenerate | pages/Assignment.tsx:145-232 | an incomplete form is refused before the credit call; a guard that stops leaves the page as it was; otherwise a reply becomes the result at stage 3, and a failure shows the message (or the fallback) with the stage the timer reached; with the promise the page actually receives, only the form check can refuse |
| AssignmentPage.Stem | pages/Assignment.tsx:342 | the download stem is never empty |
| AssignmentPage.DownloadNames | pages/Assignment.tsx:342-365 | the PDF and Word names share their stem, the Word export keeps the Word name, and without a student name the stem starts with 'Assignment-' |
| ReportPage.Report.constructor | pages/Report.tsx:29-86 | an empty form, no pictures (cap 3), not loading, no result, stage 0 |
| ReportPage.Report.HandleGenerate | pages/Report.tsx:137-231 | the assignment page's steps after the report's own check (name and topic only) |
| ReportPage.FixedPiecesClean | pages/Report.tsx:339 | the fixed pieces of the report's names hold no white space |
| ReportPage.DownloadNames | pages/Report.tsx:339-417 | the names hold no white space whatever was typed, share their stem, the Word export keeps the Word name, and the 'Report' fallback is taken exactly for an empty name |
| QuizPage.Quiz.constructor | pages/Quiz.tsx:25-37 | an empty form, no picture, an empty answer, not loading, stage 0 |
| QuizPage.Quiz.HandleFileChange | pages/Quiz.tsx:78-83 | the first picked file becomes the question picture; no file, no change |
| QuizPage.Quiz.HandleSolve | pages/Quiz.tsx:85-148 | a solve without a name, or without both question text and picture, is refused before the credit call; a stopping guard leaves the page as it was; a reply becomes the answer at stage 3, and a failure shows the page's fixed message with an empty answer |
| QuizPage.QuestionLine | pages/Quiz.tsx:133 | the question line of the prompt is never empty |
| QuizPage.PromptPointsAtPicture | pages/Quiz.tsx:86-133 | a solve let through without text has a picture and the prompt says 'See image.'; with text the prompt quotes it |
| QuizPage.DownloadNames | pages/Quiz.tsx:161-184 | the PDF and Word names share a stem ending in '-Solution', the Word export keeps the Word name, and without a name the stem is 'Quiz-Solution' |
| SheetPage.Sheet.constructor | pages/Sheet.tsx:30-47 | an empty form, no file or preview, not loading, no result, stage 0 |
| SheetPage.Sheet.HandleFileChange | pages/Sheet.tsx:83-99 | the first picked file becomes the sheet and the preview follows its type; no file, no change |
| SheetPage.Sheet.HandleGenerate | pages/Sheet.tsx:118-205 | a missing name is reported before a missing file; a signed-in user's trial is checked (and marked when first used) before the credit guard, and a refusal stops there; with no user the check is skipped; a reply becomes the result and any outcome leaves the stage at 3 |
| SheetPage.PreviewAfter | pages/Sheet.tsx:89-97 | a picture previews as its data URL, a PDF as 'pdf', and any other type keeps the old preview |
| SheetPage.PdfIsNotImage | pages/Sheet.tsx:89-95 | a PDF never takes the picture branch |
| SheetPage.IndicatorOf | pages/Sheet.tsx:684-687 | what the indicator is given: the last stage completed once there is an answer, else the running stage (SheetPage.IndicatorStatuses) |
| SheetPage.IndicatorStatuses | pages/Sheet.tsx:684-687 | with an answer all four stages show completed and none current; without, the stages before the current one are completed and exactly one is current with its message |
| SheetPage.DownloadNames | pages/Sheet.tsx:216-283 | the PDF and Word names share a stem ending in '-Solution', the Word export keeps the Word name, and without a name the stem is 'Sheet-Solution' |
| PresentationPage.MemberRow.constructor | pages/PresentationPage.tsx:114 | a new team row is empty |
| PresentationPage.Values | pages/PresentationPage.tsx:36 | one member value per row, in order |
| PresentationPage.Updated | pages/PresentationPage.tsx:125 | writing a field changes that field only |
| PresentationPage.TeamForm.constructor | pages/PresentationPage.tsx:36 | the form starts with one empty member |
| PresentationPage.TeamForm.AddTeamMember | pages/PresentationPage.tsx:113-115 | a fresh empty row is appended and the rows stay non-empty and distinct |
| PresentationPage.TeamForm.RemoveTeamMember | pages/PresentationPage.tsx:117-121 | with more than one row the given position is removed, keeping the others in order; the last row is never removed |
| PresentationPage.TeamForm.UpdateTeamMember | pages/PresentationPage.tsx:123-127 | the row at the index is changed in place, only in the given field; the list and every other row stay as they were |
| PresentationPage.ValidMembers | pages/PresentationPage.tsx:242 | the members with a non-blank name and a non-blank id, never more than the team; which and in what order is PresentationPage.ValidMembersExactly |
| PresentationPage.ValidMembersExactly | pages/PresentationPage.tsx:242 | the valid members are exactly the members whose trimmed name and id are both non-empty |
| PresentationPage.ValidMembersConcat | pages/PresentationPage.tsx:242 | the filter keeps the order: filtering two lists one after the other |
| PresentationPage.AuthorIsFirstValid | pages/PresentationPage.tsx:385-394 | with any valid member the deck's author is the first valid member's name |
| PresentationPage.Cleaned | pages/PresentationPage.tsx:342-352 | the cleaned reply has no white space at either end |
| PresentationPage.CleanReply | pages/PresentationPage.tsx:342-352 | the step-by-step cleanup computes the cleaned reply |
| PresentationPage.ReadReply | pages/PresentationPage.tsx:338-371 | the cleanup and the parse give the page's reading of the reply |
| PresentationPage.Reading | pages/PresentationPage.tsx:338-371 | slides exactly when the call succeeded and the cleaned reply parses; the parse error for one that does not; the thrown message or the fallback for a failed call |
| PresentationPage.TrimLines | pages/PresentationPage.tsx:342-352 | text with no white-space margin comes back from trimming it between two line ends |
| PresentationPage.CleanedOfFenced | pages/PresentationPage.tsx:342-352 | a reply fenced as a JSON code block is cleaned to the JSON inside |
| PresentationPage.CleanedOfPlain | pages/PresentationPage.tsx:342-352 | a reply with no fence and no margin is kept as it is |
| PresentationPage.JsonFenceIsFence | pages/PresentationPage.tsx:343-348 | a reply opening with the JSON fence opens with a plain fence too |
| PresentationPage.CleanedTwice | pages/PresentationPage.tsx:342-352 | cleaning a cleaned reply with no fence left changes nothing |
| PresentationPage.ImageInstructionFor | pages/PresentationPage.tsx:278-281 | indices are offered exactly when there are pictures, up to one less than their number |
| PresentationPage.Links | pages/PresentationPage.tsx:397 | the pictures' data, one per picture, in order |
| PresentationPage.OfferedIndexIsUsed | pages/PresentationPage.tsx:278-281 | an offered index on a slide without a chart gets the picture beside the text when its data is not empty |
| PresentationPage.ShownHere | pages/PresentationPage.tsx:370 | the fallback is shown exactly when the thrown message is empty, else the message itself |
| PresentationPage.Presentation.constructor | pages/PresentationPage.tsx:29-67 | an empty form with one empty team row, no pictures (cap 8), the first design ('cyber-neon'), not loading, no slides |
| PresentationPage.Presentation.HandleGenerate | pages/PresentationPage.tsx:241-376 | missing topic, subject or valid member is refused first; a signed-in user's trial is checked and marked before the credit guard; a stopping guard leaves the page as it was; parsed slides are kept at stage 3; an unparsed reply or a failed call shows its error with no slides and the stage the timer reached |
| PresentationPage.Presentation.AwaitSlides | pages/PresentationPage.tsx:265-375 | after the wait the page is not loading and holds the slides at stage 3, or no slides, the error and the stage the timer reached |
| PresentationPage.Presentation.DeckRequest | pages/PresentationPage.tsx:379-400 | nothing to build before slides exist; otherwise only the valid members, the pictures' data, the chosen design and the slides |
| Progress.Percent | components/ProgressIndicator.tsx:32 | the bar shows 100 once complete and otherwise more than 0 and at most 95 |
| Progress.PercentMonotone | components/ProgressIndicator.tsx:32 | a later stage never shows less, and until complete the bar stays below 100 |
| Progress.PercentOfStage | components/ProgressIndicator.tsx:32 | below the 95 mark stage i of n shows (i + 0.5) / n of the bar |
| Progress.Remaining | components/ProgressIndicator.tsx:33 | the remaining time is the estimate less the elapsed time, or 0 when that is not positive |
| Progress.FormatTime | components/ProgressIndicator.tsx:35-42 | seconds alone exactly below a minute; with minutes, a seconds part only between 1 and 59 |
| Progress.FormatTimeRoundTrip | components/ProgressIndicator.tsx:35-42 | the written minutes and seconds add back up to the time |
| Progress.Render | components/ProgressIndicator.tsx:35-42 | the text shown for a time: seconds alone, minutes alone, or minutes and seconds, each number in decimal followed by the Arabic word for its unit and the two joined by the Arabic 'and' |
| Progress.SecondsPartOmittedIff | components/ProgressIndicator.tsx:39-41 | from a minute on the seconds part is left out exactly for whole minutes |
| Progress.StatusOf | components/ProgressIndicator.tsx:85-87 | once complete every stage shows completed and nothing else |
| Progress.OneStatusWhileRunning | components/ProgressIndicator.tsx:85-87 | while running each stage is in exactly one state: completed before the current stage, current at it, pending after it |
| Progress.ShowsStageMessage | components/ProgressIndicator.tsx:129-136 | the stage message is shown while running with the stage inside the list (Progress.MessageIffSomeCurrent) |
| Progress.Statuses | components/ProgressIndicator.tsx:84-87 | one set of flags per stage |
| Progress.StatusesAt | components/ProgressIndicator.tsx:84-87 | circle i carries the flags of stage i |
| Progress.CompletedCount | components/ProgressIndicator.tsx:84-87 | the completed stages are those before the current one while running, and all of them once complete |
| Progress.CountsStep | components/ProgressIndicator.tsx:84-87 | one more stage circle adds its own completed and current flags to the two counts |
| Progress.CurrentCount | components/ProgressIndicator.tsx:84-87 | exactly one stage is current while running with the current stage among the stages, else none |
| Progress.CountsOfAppend | components/ProgressIndicator.tsx:84-87 | counting the flags of one more stage adds its own |
| Progress.MessageIffSomeCurrent | components/ProgressIndicator.tsx:129-136 | the stage message is shown exactly when some circle is marked current |
| Auth.MarkTrial | services/authService.ts:92-99 | marking sets the feature's own trial flag and leaves the other flag, the credits and the subscription alone |
| Auth.DecideTrial | services/authService.ts:84-101 | a user is let through exactly when signed in and subscribed or with the feature's trial unused, and the trial is marked exactly for an unsubscribed user with it unused |
| Auth.TrialGivenOnce | services/authService.ts:84-101 | after the mark the same feature is refused and the other feature is decided as before |
| Auth.SubscriberAlwaysAllowed | services/authService.ts:89 | a subscriber is let through and never marked |
| Auth.Backend.constructor | services/authService.ts:1-16 | the tables and the signed-in user as given |
| Auth.Backend.CurrentProfile | services/authService.ts:36-51 | the signed-in user's row exactly when someone is signed in and the row exists |
| Auth.Backend.DeductCredits | services/authService.ts:54-72 | a missing row throws 'Could not fetch user credits'; too few credits answer false and write nothing; otherwise the credits drop by the amount; credits never go negative |
| Auth.Backend.CheckAndMarkTrial | services/authService.ts:84-101 | the answer is the trial decision on the signed-in profile, and the flag is written into the given user's row exactly when the decision marks and the row exists |
| Auth.TrialTwice | services/authService.ts:84-101 | two checks in a row never both let an unsubscribed user through |
| App.PathOf | App.tsx:126-139 | every route navigates to a path starting with '/' |
| App.RouteOfPath | App.tsx:111-124 | the sidebar entry for a path, Home for '/', '/start' and unknown paths (App.PathRoundTrip, App.ProfileReadsAsHome) |
| App.PathRoundTrip | App.tsx:111-139 | navigating to a route and reading the path back gives the route, for every route but the profile |
| App.ProfileReadsAsHome | App.tsx:111-124 | '/profile' is missing from the path switch, so the profile page highlights Home |
| App.PathsDistinct | App.tsx:126-139 | different routes navigate to different paths |
| App.ProfileVersusOthers | App.tsx:126-139 | no other route shares the profile's path |
| App.ProtectedRoute | App.tsx:27-31 | the page renders exactly for a signed-in user allowed on it; signed-out visitors go to '/login' and non-administrators on admin pages to '/' |
| App.LayoutRedirect | App.tsx:150-152 | a signed-out visitor is sent to '/login' exactly when not already there |
| App.SignedOutNeverRendered | App.tsx:27-152 | the layout and the guard agree that a signed-out visitor never sees a guarded page |
| App.Shell.constructor | App.tsx:36-45 | the profile and location as given |
| App.Shell.HandleDeductCredits | App.tsx:74-91 | no profile refuses; no credits left refuses and goes to '/subscription'; otherwise a deduction that throws refuses, and any other answer lowers the local credits by one and allows, the store dropping one credit when it has one |
| Admin.PlanGrant | pages/AdminDashboard.tsx:49-50 | 'monthly' grants 100 credits for 1 month, any other plan 300 for 3 |
| Admin.StatusAfter | pages/AdminDashboard.tsx:71 | a handled request is never pending, and is approved exactly when approved |
| Admin.Subscribed | pages/AdminDashboard.tsx:56-64 | the approved profile is subscribed to the plan until the end date with the plan's credits, the rest of the row kept |
| Admin.ShowsActions | pages/AdminDashboard.tsx:151 | the approve and reject buttons are shown on pending requests only |
| Admin.ApprovalOverwritesCredits | pages/AdminDashboard.tsx:61 | approval sets the credits to the grant instead of adding to them, and approving twice is approving once |
| Admin.HandleAction | pages/AdminDashboard.tsx:46-80 | an approval writes the profile first and a failed write aborts before the status; a rejection writes no profile; the status is written exactly when the run succeeds and the request exists |
| Admin.PendingCount | pages/AdminDashboard.tsx:105 | the count of pending requests is at most the number of requests |
| Admin.HasPending | App.tsx:193 | the shell's flag: some request is pending (Admin.PendingCountPositiveIff) |
| Admin.PendingCountPositiveIff | pages/AdminDashboard.tsx:105 | the dashboard's count is positive exactly when the shell's pending flag is set |
| Admin.HandlingLowersCount | pages/AdminDashboard.tsx:46-105 | handling one pending request lowers the pending count by one |
| WordExport.DocName | utils/wordExport.ts:329 | a name ending in '.doc' is kept as it is, any other name gets '.doc' appended; the result always ends in '.doc' |
| WordExport.DocNameIdempotent | utils/wordExport.ts:329 | a name is kept exactly when it ends in '.doc', so naming twice is naming once |
| WordExport.ColorsOf | utils/wordExport.ts:32-36 | every colour is filled, and without a design all are the defaults |
| WordExport.ColorsOfDesign | utils/wordExport.ts:32-36 | each colour a design gives is used and each empty one falls back on its own |
| WordExport.LineLength | utils/wordExport.ts:288-294 | the first line stops at the first line terminator |
| WordExport.NumberMarker | utils/wordExport.ts:294 | a numbered item's text starts after at least one digit, the dot and the space |
| WordExport.PerLineOfLine | utils/wordExport.ts:288-294 | a `^...$` rewrite of a single line rewrites that line |
| WordExport.PerLineOfLines | utils/wordExport.ts:288-294 | a `^...$` rewrite under the `m` flag rewrites each line by itself and keeps the line ends |
| WordExport.Closing | utils/wordExport.ts:291-292 | the lazy `(.*?)` closes at the first delimiter, with no line terminator before it |
| WordExport.ReplaceDelimitedAbsent | utils/wordExport.ts:291-292 | text without the delimiter is left as it is |
| WordExport.ClosingAfter | utils/wordExport.ts:291-292 | the span closes right after a run that can neither start the delimiter nor end the line |
| WordExport.Delimited | utils/wordExport.ts:291-292 | a span delimiter, text, delimiter becomes the text in the tag |
| WordExport.ReplaceAllAbsent | utils/wordExport.ts:295-296 | text without the pattern is left as it is |
| WordExport.ReplaceAllLacks | utils/wordExport.ts:295-296 | after replacing every '\n' with '<br>' no line end is left |
| WordExport.ItemClosing | utils/wordExport.ts:302 | an item closes at the first `</li>` on its line |
| WordExport.ItemRunEnd | utils/wordExport.ts:302 | a run of items ends no earlier than it starts and starts with `<li>` when non-empty |
| WordExport.WrapListsNone | utils/wordExport.ts:302 | text in which no item can open is left as it is |
| WordExport.WrapListsAfter | utils/wordExport.ts:302 | a prefix in which no item can open is passed over |
| WordExport.WrapOneItem | utils/wordExport.ts:302 | one item followed by text that opens no other is wrapped in a list of its own |
| WordExport.HeadingsKeep | utils/wordExport.ts:288-290 | a line not starting with '#' passes the heading rewrites unchanged |
| WordExport.ItemsKeep | utils/wordExport.ts:293-294 | a line starting with neither '-' nor a digit passes the item rewrites unchanged |
| WordExport.EmphasisKeep | utils/wordExport.ts:291-292 | text without '*' passes the emphasis rewrites unchanged |
| WordExport.NewlinesKeep | utils/wordExport.ts:295-296 | text without line ends passes the newline rewrites unchanged |
| WordExport.HeadingsOfHeading | utils/wordExport.ts:288-290 | '# x', '## x' and '### x' become the heading of that level |
| WordExport.HeadingToHtml | utils/wordExport.ts:287-302 | a heading line is exported as that heading in a paragraph |
| WordExport.TaggedKept | utils/wordExport.ts:291-302 | a heading, strong or emphasis element passes the later rewrites unchanged |
| WordExport.ItemInParagraph | utils/wordExport.ts:299-302 | an item inside the paragraph is wrapped in a list of its own |
| WordExport.DashItemToHtml | utils/wordExport.ts:287-302 | '- x' is exported as a one-item list |
| WordExport.NumberItemToHtml | utils/wordExport.ts:287-302 | 'N. x' is exported as a one-item list |
| WordExport.NumberLine | utils/wordExport.ts:288-294 | a numbered line is one line without '*', is no heading and no dash item, and the numbered-item rewrite makes it one `<li>` around the text after `N. ` |
| WordExport.ReplaceDelimitedNone | utils/wordExport.ts:291 | text with no '**' passes the strong rewrite unchanged |
| WordExport.PlainToHtml | utils/wordExport.ts:287-302 | plain text on one line is exported as one paragraph |
| WordExport.BoldToHtml | utils/wordExport.ts:287-302 | '\*\*x\*\*' is exported as strong text in a paragraph |
| WordExport.EmToHtml | utils/wordExport.ts:287-302 | '\*x\*' is left by the strong rewrite and exported as emphasis |
| WordExport.ToHtml | utils/wordExport.ts:287-302 | the chain of rewrites inside `<p>`…`</p>`: headings, emphasis, list items, line ends, list wrapping; the lemmas around it state what it does to each kind of line |
| WordExport.PerLine | utils/wordExport.ts:288-294 | a `^…$/gm` rule applied to each line on its own, the line ends kept (WordExport.PerLineOfLine, WordExport.PerLineOfLines) |
| WordExport.ReplaceDelimited | utils/wordExport.ts:291-292 | a `/d(.*?)d/g` rewrite: each delimited run becomes a tagged run, first closing delimiter first (WordExport.Delimited, WordExport.ReplaceDelimitedNone) |
| WordExport.ReplaceAll | utils/wordExport.ts:295-296 | a global replacement of a fixed pattern, left to right (WordExport.ReplaceAllAbsent, WordExport.ReplaceAllAfter) |
| WordExport.WrapLists | utils/wordExport.ts:302 | each run of list items is wrapped in `<ul>`…`</ul>` (WordExport.WrapOneItem, WordExport.WrapListsNone) |
| WordExport.Newlines | utils/wordExport.ts:295-296 | blank lines become paragraph breaks, then single line ends become `<br>` (WordExport.NewlinesOfParagraphs, WordExport.NewlinesOfBreak) |
| WordExport.ReplaceAllAfter | utils/wordExport.ts:295-296 | a replacement passes unchanged over a prefix that lacks the pattern's first character |
| WordExport.NewlinesOfBreak | utils/wordExport.ts:295-296 | one line end between two lines becomes `<br>` |
| WordExport.NewlinesOfParagraphs | utils/wordExport.ts:295-296 | a blank line between two lines becomes `</p><p>` |
| WordExport.BlankLineToBreak | utils/wordExport.ts:295-296 | the blank line between two lines is the `\n\n` the first rewrite turns into `</p><p>` |
| WordExport.ParagraphBreakKept | utils/wordExport.ts:295-296 | two lines around a paragraph break hold no line end for the `<br>` rewrite |
| WordExport.PerLineOfUnmarked | utils/wordExport.ts:288-294 | a line rule leaves text whose lines all start with something other than '#', '-' or a digit unchanged |
| WordExport.MarkupKeeps | utils/wordExport.ts:288-294 | text without '*' whose lines are all unmarked passes headings, emphasis and items unchanged |
| WordExport.ParagraphsToHtml | utils/wordExport.ts:287-302 | two plain lines with a blank line between them become two paragraphs |
| WordExport.LineBreakToHtml | utils/wordExport.ts:287-302 | two plain lines with one line end between them become one paragraph with a `<br>` |
| WordExport.PerLineOfTwo | utils/wordExport.ts:288-294 | two lines are rewritten each on its own, with the line end between them kept |
| WordExport.DashLinesToItems | utils/wordExport.ts:288-294 | two dash lines become two list items with the line end kept |
| WordExport.DashPairUnmarked | utils/wordExport.ts:288-292 | two dash lines carry no heading and no emphasis, so those rewrites leave them as they are |
| WordExport.DashPairItems | utils/wordExport.ts:293-294 | two dash lines each become one `<li>` item, and no item is then read as a numbered line |
| WordExport.ItemsApart | utils/wordExport.ts:302 | two items separated by `<br>` are each wrapped in a list of their own |
| WordExport.ConsecutiveItemsToHtml | utils/wordExport.ts:287-302 | two consecutive dash lines become two one-item lists separated by `<br>` in one paragraph |
| WordExport.TitleOf | utils/wordExport.ts:284 | the title given, or 'Document' when none is |
| WordExport.ExportTextToWord | utils/wordExport.ts:279-340 | false exactly when saving fails; otherwise the '.doc' name, the title and the rewritten text, with no design colours |
| WordExport.ExportToWord | utils/wordExport.ts:24-274 | the fixed error exactly when anything fails; otherwise the '.doc' name, the title, the design's colours and the element's HTML |
| WordExport.ExportsAgree | utils/wordExport.ts:24-340 | both exports fail together, name the file alike, and the element export's error depends on neither the cause nor the input |
| Text.TrimIsSlice | services/geminiService.ts:5 | `trim` gives the slice between the white-space margins, with no white space at either end |
| Text.TrimIdempotent | services/geminiService.ts:5 | trimming twice is trimming once |
| Text.TrimOfTrimmed | services/geminiService.ts:5 | text with no white-space margin is left as it is |
| Text.TrimSlice | services/geminiService.ts:5 | `trim` returns the slice between two white-space margins and names where they end |
| Text.Trim | services/geminiService.ts:5 | `trim`: the result has no JavaScript white space at either end; Text.TrimIsSlice shows it is the slice between the margins, Text.TrimIdempotent that trimming again changes nothing |
| Text.Split | services/geminiService.ts:5 | splitting gives at least one piece, none holding the separator, and joining them back gives the text |
| Text.SplitJoin | services/geminiService.ts:5 | splitting what was joined gives the pieces back when none holds the separator |
| Text.SplitPast | services/geminiService.ts:5 | splitting a separator-free head, the separator and a tail gives the head followed by the pieces of the tail |
| Text.SplitAppend | services/geminiService.ts:82 | splitting `s`, a separator and a separator-free tail gives the pieces of `s` followed by the tail |
| Text.SplitLastPiece | services/geminiService.ts:82 | `split(sep).pop()` of text whose part after the last separator is `tail` gives `tail` |
| Text.ContainsIffOccurs | pages/Assignment.tsx:452 | `includes` holds exactly when the pattern occurs at some position |
| Text.CollapseWhitespaceClean | pages/Assignment.tsx:342 | replacing white-space runs by a clean text leaves no white space, and clean text is unchanged |
| Text.CollapseWhitespace | utils/designTemplates.tsx:300 | `replace(/\s+/g, rep)`: each run of white space becomes one copy of the replacement |
| Text.LowerAscii | services/geminiService.ts:82 | lower-casing works character by character and keeps the length |
| Text.NatToString | pages/Assignment.tsx:201 | the decimal text of a number is a non-empty run of digits |
| Text.DigitsValueOfNatToString | pages/Assignment.tsx:481-483 | reading back the decimal text of a number gives the number |
| Text.NatToStringInjective | pages/Assignment.tsx:481-483 | different numbers have different decimal texts |

## Left out

- Outside services: the hosted database and its sign-in are an in-memory profile and request store, and the Gemini SDK is a function from key and attempt to an outcome. The picture search and the proxy fetch (services/imageSearchService.ts) are not part of this model.
- Rendering: the React markup and styling, the PowerPoint library's shape, text and chart calls with their coordinates, the preview card's sizes and opacities, KaTeX, and the Blob and link downloads are not modelled. Only the decisions taken before those calls are.
- PDF export: html2pdf and jsPDF in the pages, utils/pdfExport.ts and `window.print` are not part of this model. Only the PDF file names are.
- exportToWord: the DOM cloning, the table conversion and the loading of pictures are not modelled. The exported body is taken as given HTML, and a failure is a parameter.
- Timers: the progress and elapsed-time intervals and the toasts' dismissal are not modelled. Ticks are given as a count, and the two-second wait after an overload is a step that changes nothing.
- Concurrency: the model runs calls one after another. Interleaved calls on the shared key cursor, and the non-atomic read-then-write in `deductCredits`, are not modelled.
- Randomness: `getRandomDesign` in both template files, the random design picked before each generation in Report and Sheet, and the random skeleton widths are not modelled.
- Dates: the admin's subscription end date is a parameter. Month arithmetic, `toISOString` and locale date formats are not modelled.
- Files: FileReader is not modelled. The data URL of an upload, and the result of turning a picture link into base64, are parameters.
- Prompts: the prompt texts are not modelled, apart from the small conditional pieces (the question text or 'See image.', and what the deck prompt says about picture indices). The smart-chart switch of the deck prompt is not modelled either.
- JSON.parse: it is a parameter that returns a list of slides or fails. A reply that parses to something other than an array is a parse failure.
- Strings: lower-casing is ASCII only. That is exact for the palette names and file extensions it is applied to. Regular expressions are modelled as the string functions they compute on these inputs.
- Other files: the screens that only present (cover page, headers, forms, skeletons, toasts, home, login, settings, footer, notices, profile) are not part of this model. Neither are the one-line rules in the sidebar, the services selector and the subscription page. constants.ts and types.ts contribute only definitions; `COST_PER_GENERATION` is unused, since App deducts 1.
- Gemini.MimeType: the code looks up `name.split('.').pop()`, so a name without '.' is itself looked up as an extension ('png' gives image/png). The model follows the code. The rule "no '.' gives image/jpeg" holds only when the whole name is not a known extension.
- WordExport: '\n' becomes '<br>' before lists are wrapped, so consecutive list lines are separated by '<br>' and each gets its own `<ul>`. The model keeps that behaviour as written, and WordExport.ConsecutiveItemsToHtml states it.
- PresentationPage.TeamForm.UpdateTeamMember: requires an index inside the list. On a missing row the JavaScript code throws, and that case is not modelled.
- PresentationPage.ValidMembers: its own ensures states only the length. Which members are kept, and in what order, is stated by PresentationPage.ValidMembersExactly.
- Auth.TrialTwice: requires a signed-in user. With no user both checks return false, as Auth.Backend.CheckAndMarkTrial states.
- QuizPage.Quiz.HandleFileChange: the handler stores the file under the input's `name`. The form's only file input is `questionImage` (pages/Quiz.tsx:369), so the model writes that field.
- Text lengths: Dafny strings are sequences of code points, while JavaScript `length` and `substring` count UTF-16 code units. The two differ only for characters outside the Basic Multilingual Plane. PptService.SafeName keeps no such character, so its 30-character limit is exact; other lengths differ for such characters.

## Findings

| source | as written | input that shows it | evidently intended | confidence | as-written member | corrected member |
|---|---|---|---|---|---|---|
| pages/Assignment.tsx:151 | `if (!onDeductCredits()) return;` tests the promise that the async handler of App.tsx:74 returns, and a promise is always truthy. The same guard is in Report, Quiz, Sheet and the presentation page. | a signed-in user with 0 credits: the handler settles to false, yet the guard lets generation go on | `if (!(await onDeductCredits())) return;`, which stops exactly when the deduction was refused | not executed | Generation.AsyncGuardNeverStops | Generation.AwaitedGuardStopsIffRefused |

Each page takes the handler's return value as a parameter. `Pending(b)` is the promise as written. `Plain(b)` is the awaited value, which the corrected guard uses; Generation.GuardsDisagreeOnRefusal shows the two guards differ on a refusal.
