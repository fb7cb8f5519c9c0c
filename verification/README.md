# Label rendering and dispatch of Ace.BarcodePrinter, in Dafny

Ace.BarcodePrinter is a desktop tool. It reads a product sheet (CSV), maps
its columns to an item name, price, SKU and quantity, and prints one ZPL
label per unit on a Zebra-style printer. This project models the pure core
of that program and proves properties of it:

- `EstimateCode128Width` (module `Code128`): the barcode width heuristic. It
  packs digit pairs when the content is all digits, and charges 11 modules
  per UTF-8 byte otherwise.
- `SanitizeZPL` (module `Zpl`): removes `^` and `~`, turns line breaks into
  spaces, and trims white space as Go's `strings.TrimSpace` does.
- `ProcessTemplate` (module `Template`): derives `by` and `barcode_x` from
  the raw SKU, lets the sanitised caller values override them, and then
  replaces the `{{key}}` placeholders one key at a time. Go's map
  iteration order is an explicit parameter: a sequence holding every final
  key once.
- A segment view of templates (module `Segments`): a template as literal
  text and `{{key}}` placeholders. Under brace-free text, keys and values,
  rendering fills each placeholder of a final key with its final value and
  keeps everything else, for every visiting order.
- The row resolver in `refreshTable` (module `Resolver`): finds the
  columns, reads the cells with bounds checks, and defaults the quantity.
- The print-button handler (module `Dispatch`): parses the quantity with
  `strconv.Atoi`, skips invalid items, renders once per item, sends the
  label once per unit, and stops at the first failed send. The printer is
  modelled by the set `fails` of attempt numbers whose send fails.
- Three default choices made by the window (module `Selection`): the
  preferred printer, the auto-selection of columns, and the template
  loaded at start-up, with its byte order mark stripped.

The supporting modules model the Go library behaviour the code relies on:
- `Unicode`: UTF-8 byte length and `unicode.IsSpace`.
- `Strings`: `HasPrefix`, `Contains`, `ReplaceAll` and `TrimSpace`, plus a
  `Join` of pieces by a separator, used to say that every occurrence of a
  pattern is replaced.
- `Strconv`: `fmt.Sprintf("%d")` and `strconv.Atoi` on a 64-bit platform.
- `Wrappers`: `Option`.

Strings are sequences of code points; Go's `len` is modelled by
`Utf8Len`.

Three behaviours of the program are easy to get wrong:
- When headers repeat, the resolver picks the **last** equal header, not
  the first.
- Substitution is not order-independent: each `ReplaceAll` rescans the
  output of the previous one, so a value holding another key's placeholder
  is expanded or not depending on the map's visiting order.
  `TemplateExamples.RenderingDependsOnOrder` proves both outcomes.
- With no data rows, the resolver leaves the item list untouched (`None`)
  instead of producing an empty list.

## Model

| member | source | states |
|---|---|---|
| Code128.EstimateCode128Width | template_processor.go:83-113 | Width is (35 + 11·⌈n/2⌉)·m for an all-digit content of n ≥ 2 code points. Otherwise it is (35 + 11·UTF-8 byte length)·m. |
| Code128.WidthOfEvenDigits | template_processor.go:101-105 | An even-length digit string is charged exactly n/2 symbols. |
| Code128.WidthOfOddDigits | template_processor.go:101-105 | An odd-length digit string of three or more is charged n/2 + 1 symbols. |
| Code128.DigitPackingNarrows | template_processor.go:92-112 | For digit content, the estimate never exceeds the one-symbol-per-character width. It is strictly below it from two digits on. |
| Code128.WidthCoversOverhead | template_processor.go:100-112 | Every estimate is at least the 35-module overhead. The empty string is exactly 35·m, since it takes the non-packed branch. |
| Code128.WidthTestVectors | template_processor_test.go:15-18 | At module width 2: "12" gives 92, "123456" gives 136, "AB" gives 114, "A1" gives 114. |
| Code128.WidthOddCases | template_processor.go:101-108 | A lone digit is not packed. "é" is charged two symbols, one per UTF-8 byte. |
| Unicode.IsSpace | template_processor.go:123 | In ASCII, exactly the space and the controls from tab to carriage return are white space. |
| Unicode.Utf8Len | template_processor.go:101-108 | The byte length lies between the code-point count and four times it. It equals the count exactly when every code point is ASCII. |
| Strings.ReplaceAll | template_processor.go:118-122 | A non-empty pattern that does not occur leaves the text unchanged. Every code point of the result comes from the text or from the replacement. |
| Strings.ReplaceJoin | template_processor.go:71 | Every occurrence is replaced and nothing else changes: pieces without the pattern's first code point, with the pattern between each two, become the same pieces with the replacement between each two. |
| Strings.HasPrefix | main.go:350 | `HasPrefix(s, p)` holds exactly when `s` is `p` followed by the rest of `s`. |
| Strings.ContainsIsOccurrence | main.go:73 | `Contains(s, t)` holds exactly when `t` occurs in `s` at some position. |
| Strings.ReplaceCharByEmpty | template_processor.go:118-119 | Replacing a one-character pattern by "" deletes exactly that character. |
| Strings.ReplaceCharByChar | template_processor.go:121-122 | Replacing a one-character pattern by one character maps that character. |
| Strings.ReplaceBySelf | template_processor.go:71 | Replacing any pattern, the empty one included, by itself gives back the text. |
| Strings.ReplaceSkipsPrefix | template_processor.go:71 | A prefix holding no copy of the pattern's first character is copied unchanged and the scan resumes after it. |
| Strings.TrimSpace | template_processor.go:123 | The result is the slice of the input after its leading white space, and everything cut from the end is white space. The result neither starts nor ends with white space. |
| Strings.TrimSpaceIdempotent | template_processor.go:123 | Trimming twice equals trimming once. |
| Strings.TrimSpaceKeepsChars | template_processor.go:123 | Trimming introduces no code point. |
| Strconv.FormatNat | template_processor.go:60 | `%d` of a non-negative value is a non-empty digit string without a redundant leading zero, whose decimal value is the input. |
| Strconv.Atoi | main.go:271-272 | An accepted string is an optional sign followed by digits only, and its value fits a 64-bit int. A negative result has a leading '-'. |
| Strconv.AtoiAccepts | main.go:271-272 | Every optional sign plus digit string whose value fits is accepted with that value. |
| Strconv.AtoiRejectsOutOfRange | main.go:271-272 | A sign plus digit string whose value does not fit 64 bits is rejected. |
| Strconv.AtoiOfFormat | template_processor.go:60 | `Atoi` reads back every formatted value in range, and its negation. |
| Strconv.AtoiAcceptsExamples | main.go:271-274 | "3", "+5", "-2" and "0" are accepted with their values. |
| Strconv.AtoiLeadingZeros | main.go:271-274 | "007" is accepted as 7. |
| Strconv.AtoiRejectsExamples | main.go:271-274 | "", "+", " 3", "3 ", "abc" and "1_000" are rejected. |
| Zpl.SanitizeZPL | template_processor.go:116-124 | The output has no `^`, `~`, LF or CR. It neither starts nor ends with white space. |
| Zpl.ReplacementsAreClean | template_processor.go:118-122 | The four sequential replacements equal the single-pass per-character reference `Clean`. |
| Zpl.SanitizeIsTrimmedClean | template_processor.go:116-124 | `SanitizeZPL` is `TrimSpace` of the reference `Clean`. |
| Zpl.SanitizeKeepsCleanValue | template_processor.go:116-124 | A value with no marker and no white space at either end passes through unchanged. |
| Zpl.SanitizeIdempotent | template_processor.go:116-124 | Sanitising twice equals sanitising once. |
| Zpl.SanitizeKeepsCharOut | template_processor.go:116-124 | Sanitising adds no code point other than the space that stands for a line break. |
| Template.BarcodeX | template_processor.go:55-58 | The offset is never negative. When the barcode fits, the space left of it equals the space right of it, or is one dot less. When it does not fit, the offset is 0. |
| Template.BarcodeXFloor | template_processor.go:55-58 | Go's truncating division and flooring division give the same offset once it is clamped at 0. |
| Template.ByRule | template_processor.go:19-45 | Unless the caller sets `by`, it is "1" exactly when the raw SKU has more than 12 code points, and "2" exactly when it has 12 or fewer. The estimate uses module width 1 or 2 to match. |
| Template.ByThreshold | template_processor.go:15-25 | A 12-code-point SKU gets "2" and a 13-code-point SKU gets "1". |
| Template.ByCountsRawSku | template_processor.go:19-25 | The length is taken before sanitising: "^" plus a clean 12-code-point SKU gets "1", while its sanitised value alone would get "2". |
| Template.FinalReplacements | template_processor.go:19-65 | The keys are the caller's keys plus `by` and `barcode_x`. Every caller value is sanitised. The derived values stand only where the caller set none. |
| Template.CallerOverridesDerived | template_processor.go:63-65 | A caller-supplied `by` or `barcode_x` wins over the derived one, sanitised. |
| Template.FinalValuesHaveNoMarkers | template_processor.go:31-65 | Every value in the final map is free of `^`, `~`, LF and CR. |
| Template.ProcessTemplate | template_processor.go:11-74 | For every key order, a template without `{{` is returned unchanged (the empty template among them). A template free of `^ ~ LF CR` renders to a document free of them. |
| Template.Substitute | template_processor.go:68-72 | When no visited key's placeholder occurs in the text, the replacement loop leaves it unchanged, unknown `{{…}}` tokens included. |
| Template.SubstituteRepeatedPlaceholder | template_processor.go:68-72 | A placeholder repeated between brace-free pieces is replaced at every occurrence, in every order, when no other key's placeholder occurs and the value has no `{`. |
| Template.ProcessTemplateKeepsUnknownTokens | template_processor.go:68-73 | A template holding no placeholder of a final key renders to itself for every order: tokens of unknown keys pass through. |
| Template.ProcessTemplateRepeatedToken | template_processor.go:63-72 | A caller's placeholder repeated in the template is replaced at every occurrence by the sanitised value, for every order. This holds when the pieces between the repeats have no `{`, the caller's raw value has no `{`, and no other final key's placeholder occurs in the template. |
| Segments.ProcessTemplateFills | template_processor.go:63-73 | Take a template of text and `{{key}}` placeholders, with no `{` in the text, no brace in any key and no `{` in any caller value. For every key order, it renders to the same segments with each placeholder of a final key replaced by that key's final value, and everything else kept, unknown placeholders included. Every filled placeholder is free of `^ ~ LF CR`. |
| Segments.SubstituteFills | template_processor.go:68-72 | For any visiting order of brace-free keys whose values have no `{`, the replacement loop fills exactly the placeholders of the visited keys. |
| Segments.ReplaceStep | template_processor.go:70-71 | One `ReplaceAll` of a key's placeholder fills exactly that key's placeholders. Text and other keys' placeholders are untouched. |
| Segments.HoleSkip | template_processor.go:71 | A scan for one brace-free key's placeholder copies another key's placeholder unchanged and resumes after it. |
| Segments.FinalValuesBraceFree | template_processor.go:22-65 | When no caller value holds `{`, no final value does: sanitising adds none, and the derived `by` and `barcode_x` are digits. |
| Template.SubstituteWithoutBraces | template_processor.go:68-72 | No replacement step changes a text without `{{`. |
| Template.SubstituteKeepsMarkersOut | template_processor.go:68-72 | When the text and every value are marker-free, so is the substitution's result, for any order. |
| Template.SubstituteSinglePlaceholder | template_processor.go:69-72 | If only one key's placeholder occurs and its replacement leaves no `{{`, the result is that single replacement, whatever the order. |
| Template.FallbackRendersUnchanged | main.go:355 | The built-in error template renders to itself for every caller map and key order. |
| TemplateExamples.SampleOffset | template_processor_test.go:34-35 | SKU "123456" gives offset 124, formatted "124". |
| TemplateExamples.CenteringTest | template_processor_test.go:31-44 | `^FT{{barcode_x}},112^BCN` with SKU "123456" renders to `^FT124,112^BCN` for every key order. |
| TemplateExamples.RenderingDependsOnOrder | template_processor.go:69-72 | With item name "{{price}}" and price "9", visiting `item_name` first yields "9" and visiting `price` first yields "{{price}}". |
| TemplateExamples.RepeatedTokenTest | template_processor.go:68-72 | `{{price}} / {{price}}` with price "9" renders to `9 / 9` for every key order. |
| Resolver.LastIndexIn | main.go:162-168 | The index is -1 exactly when no header matches. Otherwise it is a matching position with no matching header after it. |
| Resolver.FindColumns | main.go:161-168 | The one-pass overwriting scan yields, per selection, the last equal header's position, or -1. |
| Resolver.SafeGet | main.go:182-185 | The cell at the index, or "" when the index is -1 or beyond the row. |
| Resolver.QtyCell | main.go:172-179 | The quantity is never empty. It is the cell verbatim when present and non-empty, else "1". |
| Resolver.ResolveRow | main.go:171-192 | Name, price and SKU are each the cell at their column when the row reaches it, and otherwise "". Each is "" or a cell of the row. The quantity is never empty and is "1" or a cell of the row. |
| Resolver.Resolve | main.go:148-196 | The result is `None` exactly when there are no rows or a required selection is "". Otherwise there is one item per row, in row order, with every field characterised. |
| Resolver.UnmatchedSelection | main.go:162-191 | A selection that no header equals reads "" for name and SKU, and "1" for quantity, in every row. |
| Resolver.LastHeaderWins | main.go:163-168 | With headers SKU, Name, SKU, the SKU is read from the third column. |
| Resolver.WidgetScenario | main.go:148-196 | A three-column sheet with quantity "(Default to 1)" yields the item Widget, 9.99, 123456, quantity "1". |
| Resolver.RaggedRow | main.go:182-191 | A one-cell row yields "" for price and SKU without failing. |
| Resolver.QtyKeptVerbatim | main.go:172-179 | " 3" and "abc" are kept verbatim. "" and a missing cell become "1". |
| Dispatch.LabelCount | main.go:271-274 | The count is positive exactly when `Atoi` accepts the quantity with a positive value, and it is then that value. Otherwise the item is skipped. |
| Dispatch.Render | main.go:276-282 | Whatever the item's values: a template without `{{` is sent as is, and a marker-free template gives a marker-free label. |
| Segments.RenderFills | main.go:276-282 | Take item values with no `{` and a template of brace-free text and placeholders. For every order, the label fills each `{{item_name}}`, `{{price}}`, `{{sku_id}}`, `{{by}}` and `{{barcode_x}}` with its final value and keeps the rest of the template. |
| Dispatch.QuantityExamples | main.go:271-274 | "3" asks for three labels. "0", "-2", "abc", " 3" and "" ask for none. |
| Dispatch.Planned | main.go:270-306 | The sends planned for the first n items number the sum of their counts. |
| Dispatch.PlannedPrefix | main.go:270-306 | The sends planned for fewer items are a prefix of those planned for more. |
| Dispatch.PlannedSlot | main.go:282-303 | Every send in item k's share of the plan is item k's rendered label. |
| Dispatch.PlanExample | main.go:270-306 | With counts 2, 0 and 1, the plan is the first label twice then the third once. Two items are printed and three labels are sent. |
| Dispatch.SendCopies | main.go:297-303 | The sends are copies of the one rendered document, at most q of them. All q succeed with no failure, or the batch stops right after the first failed attempt. |
| Dispatch.FailedBatch | main.go:297-302 | A failure while printing item i ends the batch. Every earlier attempt succeeded, the sends form a prefix of the plan, item i is named, and only the items before it are counted. |
| Dispatch.SendBatch | main.go:267-306 | Over abstract counts and labels: with no failure, the sends are exactly the plan and the counters are the printable-item count and the label sum. The batch completes exactly when no attempt within the plan fails. |
| Dispatch.PrintLabels | main.go:256-310 | No items, or no printer, means no sends. Otherwise the outcome is `Done` with the full plan and both counters exactly when no planned attempt fails. It is `Failed`, stopping at the first failed attempt, otherwise. |
| Selection.IsZebra | main.go:73 | A name without a 'Z' is never Zebra-like. A name starting with "ZDesigner" or "Zebra" always is. |
| Selection.FirstZebra | main.go:71-76 | The position of the first name containing "ZDesigner" or "Zebra", or -1 exactly when there is none. |
| Selection.PreferredPrinter | main.go:69-77 | No printer leaves the selection as it was. Otherwise the first Zebra-like name is chosen, or the first name when there is none. |
| Selection.ZebraPreferred | main.go:69-77 | A ZDesigner printer listed second is preferred over a first non-Zebra one. Without Zebra names, the first printer is chosen. |
| Selection.AutoSelect | main.go:240-246 | Quantity resets to "(Default to 1)". Each selection becomes the last header among its known names, or keeps its previous value. |
| Selection.Picked | main.go:241-245 | The last header among the known names, which is one of them, or the fallback when no header is among them. |
| Selection.AutoSelectedColumn | main.go:240-246 | An auto-selected header is resolved to the very column it was picked from. |
| Selection.DefaultQtyReadsOne | main.go:240 | When no header equals the reset quantity option, every resolved quantity is "1". |
| Selection.StripBom | main.go:350-351 | A leading U+FEFF is removed and nothing else changes. A string without one is returned as is. |
| Selection.StripBomOnce | main.go:350-351 | Only one mark is removed: a second U+FEFF stays in the template. |
| Selection.LoadTemplate | main.go:345-356 | A readable file gives its contents without a leading mark. An unreadable one gives the built-in error template. |

## Left out

- The Fyne window: widgets, table callbacks, dialogs, layout and event
  wiring are GUI glue. The status texts and dialogs are reduced to the
  `Outcome` value.
- Reading the CSV file and the template file. Their contents, or their
  absence, are parameters: `Resolve` takes headers and rows, and
  `LoadTemplate` takes `Option<string>`.
- Printer discovery and transport (`GetPrinters`, `SendToPrinter`) run
  external processes. Discovery is the `printers` parameter. Transport is
  the set `fails` of attempt numbers whose send fails, and error messages
  are not modelled.
- Go's randomised map iteration is modelled as an arbitrary key order per
  render (`orders`), not as a random process.
- Invalid UTF-8 is not modelled: strings are sequences of code points, so
  the U+FFFD substitution of Go's decoder is absent.
- Dispatch.PrintLabels: `successCount` and `totalLabels` are unbounded. Go's
  `int` could wrap when a sheet's quantities sum past 2^63 - 1.
- Segments.ProcessTemplateFills: says nothing when the text, a key or a
  value holds a brace. There the result depends on the visiting order, as
  `TemplateExamples.RenderingDependsOnOrder` shows, so no single filled
  template describes it.
- `OnChanged` cascades are left out: in the program, each `SetSelected` in
  the auto-selection can also trigger `refreshTable`. The model computes
  the final selections and resolves once.
- Re-entrancy of the print button while a batch is running is not
  modelled.
