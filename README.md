# HtmxPal core, modelled in Dafny

HtmxPal is a Visual Studio extension that helps with htmx in HTML editors. Its core has four
parts, and this project models all four:

- **Attribute completion.** Typing `hx` inside a tag offers the htmx attributes. Committing
  one inserts `name=""` and puts the caret between the quotes.
- **Value completion.** After `hx-swap="` and similar, it offers the attribute's documented
  values.
- **Quick info.** Hovering an `hx-` attribute shows its documentation page, converted from
  markdown to the editor's rich text.
- **Documentation registries.** Two registries hold those pages: one for attributes and one
  for attribute values.

The editor's text snapshot is a `string`, and a snapshot position is a `nat` index into it.
A line is given by its start and end positions. A directory listing is a sequence of
`(name, text)` files in enumeration order. The rich-text elements the extension builds
(classified runs, text elements, hyperlinks and styled containers) are one `Node` datatype,
and a container's style is the set of its flags.

A .NET exception is not a precondition here. The model returns it as a value:
`Outcome.Throws(ArgumentOutOfRange | NullReference | Overflow | FileNotFound)`. The one
endless loop in the source is `Outcome.Diverges`: `ProcessInlineElements` on a lone `*`
never advances. Every caller passes these outcomes on. So the model states exactly which
inputs make the extension throw or hang, and proves that the others do not.

Modules follow the source files:

| module | file | models |
|---|---|---|
| `Outcomes` | outcomes.dfy | Option, the .NET exceptions, Returns / Throws / Diverges |
| `Text` | text.dfy | character classes, ordinal (ignore-case) prefix/suffix tests, Trim, Split, file stems |
| `Adornments` | adornments.dfy | classified runs, text elements, hyperlinks, containers |
| `FileSystem` | file_system.dfy | directory listings and `File.ReadAllText` |
| `SnapshotPointExtensions` | snapshot_point_extensions.dfy | `IsInsideHtmlTag`, `GetContainingToken`, `GetPreviousToken`, `IsInsideHxAttribute` |
| `MarkdownConverter` | markdown_converter.dfy | `Convert` and `ProcessInlineElements` |
| `ContainerElementHelper` | container_element_helper.dfy | both `CreateRichContent` overloads and the hyperlink |
| `TooltipsProvider` | tooltips_provider.dfy | `ToolTipsProvider`: keyword list and rendering cache |
| `AttributeTooltipsProvider` | attribute_tooltips_provider.dfy | `AttributeToolTipsProvider`: per-attribute value lists and lazy pages |
| `HtmxQuickInfoSource` | quick_info_source.dfy | `GetAttributeText` and `BuildQuickInfoElementsAsync` |
| `HtmxCompletionSource` | completion_source.dfy | attribute completion: start, items, descriptions |
| `HtmxAttributesCompletionSource` | attributes_completion_source.dfy | value completion: start, items, descriptions |
| `HtmxCompletionCommitManager` | completion_commit_manager.dfy | commit characters and `TryCommit` |

Each loop of the source is a method with a `while` loop, proved equal to a specification
function. Examples: the markdown converter's two loops, the backward and forward scans of the
snapshot extensions, the quick-info scans, the description interleaving and the value
registry's constructor. Properties are proved about those functions. The two providers are
classes whose caches are fields the lookup methods update. Their class invariant says that
every cached element is a rendering of its key and that each key was rendered once.

Some places where the code and its tests disagree. The model follows the code:

- `IsInsideHxAttribute` recognises a point just after `="` — position 13 in
  `<div hx-get="">`. The tests expect the same answer at position 12, between `=` and `"`.
  At position 12 the code returns false (`HxAttributeAtQuote`).
- A fenced code block runs its lines together with no separator. The tests expect `\r\n`
  between them (`FenceJoinsLines`).
- A paragraph container has the style `Stacked` alone
  (`src/Xakpc.VisualStudio.Extensions.HtmxPal/Services/MarkdownConverter.cs:35` and `:66`).
  The simple-paragraph test expects `Stacked | Wrapped`
  (`test/Xakpc.VisualStudio.Extensions.Htmx.Tests/MarkdownConverterTests.cs:22`).
  `BlockContainer` and `ParagraphChildren` state `{Stacked}`.

## Model

Source paths are relative to the repository root.

| member | source | states |
|---|---|---|
| Text.TrimStart | src/Xakpc.VisualStudio.Extensions.HtmxPal/Services/MarkdownConverter.cs:28 | the result is a suffix of the input that does not start with white space |
| Text.TrimStartDropsWhiteSpace | src/Xakpc.VisualStudio.Extensions.HtmxPal/Services/MarkdownConverter.cs:28 | everything TrimStart removes is white space, so the suffix it keeps is the longest one |
| Text.TrimEnd | src/Xakpc.VisualStudio.Extensions.HtmxPal/Services/MarkdownConverter.cs:52 | the result is a prefix of the input that does not end with white space |
| Text.TrimEndDropsWhiteSpace | src/Xakpc.VisualStudio.Extensions.HtmxPal/Services/MarkdownConverter.cs:52 | everything TrimEnd removes is white space |
| Text.TrimEmptyIff | src/Xakpc.VisualStudio.Extensions.HtmxPal/Services/MarkdownConverter.cs:28-30 | a line trims to the empty string exactly when every character of it is white space |
| Text.Split | src/Xakpc.VisualStudio.Extensions.HtmxPal/Services/MarkdownConverter.cs:21 | splitting always yields at least one piece, even for the empty text |
| Text.SplitJoin | src/Xakpc.VisualStudio.Extensions.HtmxPal/Services/MarkdownConverter.cs:21 | joining the pieces with the separator gives back the original text, so no character is lost or added |
| Text.SplitPieceHasNoSeparator | src/Xakpc.VisualStudio.Extensions.HtmxPal/Services/MarkdownConverter.cs:21 | no piece contains the separator |
| Text.SplitChars | src/Xakpc.VisualStudio.Extensions.HtmxPal/Services/MarkdownConverter.cs:21 | every character of every piece occurs in the original text |
| Text.FileStem | src/Xakpc.VisualStudio.Extensions.HtmxPal/Services/TooltipsProvider.cs:36 | the stem is a prefix of the file name; it is the whole name, or what it drops is one `.` and a tail without `.` |
| Text.FileStemDropsExtension | src/Xakpc.VisualStudio.Extensions.HtmxPal/Services/TooltipsProvider.cs:36 | the stem of `base.ext`, for an extension without `.`, is `base` |
| FileSystem.ReadAllText | src/Xakpc.VisualStudio.Extensions.HtmxPal/Services/TooltipsProvider.cs:59 | throws FileNotFound exactly when no file has the name; otherwise returns the text of the first file with that name; never hangs |
| SnapshotPointExtensions.InsideTagIff | src/Xakpc.VisualStudio.Extensions.HtmxPal/Extensions/SnapshotPointExtensions.cs:56-80 | a point is inside a tag exactly when some `<` before it is followed by no `>` up to the point |
| SnapshotPointExtensions.IsInsideHtmlTag | src/Xakpc.VisualStudio.Extensions.HtmxPal/Extensions/SnapshotPointExtensions.cs:56-80 | the backward loop answers the inside-a-tag test on the text before the point, and answers false at position 0 |
| SnapshotPointExtensions.TokenStart | src/Xakpc.VisualStudio.Extensions.HtmxPal/Extensions/SnapshotPointExtensions.cs:94-98 | the backward token scan stops at or after the line start, passes only token characters, and stops at the line start or at a non-token character |
| SnapshotPointExtensions.TokenEnd | src/Xakpc.VisualStudio.Extensions.HtmxPal/Extensions/SnapshotPointExtensions.cs:100-104 | the forward token scan stops at or before the line end, passes only token characters, and stops at the line end or at a non-token character |
| SnapshotPointExtensions.ContainingToken | src/Xakpc.VisualStudio.Extensions.HtmxPal/Extensions/SnapshotPointExtensions.cs:87-107 | the containing token is the maximal run of letters, digits and `-` through the point, within the line |
| SnapshotPointExtensions.MaximalRunUnique | src/Xakpc.VisualStudio.Extensions.HtmxPal/Extensions/SnapshotPointExtensions.cs:87-107 | there is only one such maximal run, so the containing token is well defined |
| SnapshotPointExtensions.ContainingTokenEmpty | src/Xakpc.VisualStudio.Extensions.HtmxPal/Extensions/SnapshotPointExtensions.cs:87-107 | with no token character on either side, the containing token is the empty span at the point |
| SnapshotPointExtensions.GetContainingToken | src/Xakpc.VisualStudio.Extensions.HtmxPal/Extensions/SnapshotPointExtensions.cs:87-107 | the two loops compute the containing token |
| SnapshotPointExtensions.WhiteSpaceStart | src/Xakpc.VisualStudio.Extensions.HtmxPal/Extensions/SnapshotPointExtensions.cs:120-124 | the backward white-space scan passes only white space and stops at the line start or after a non-white-space character |
| SnapshotPointExtensions.PreviousToken | src/Xakpc.VisualStudio.Extensions.HtmxPal/Extensions/SnapshotPointExtensions.cs:114-133 | the previous token throws exactly when the token starts at position 0 of the snapshot, and never hangs |
| SnapshotPointExtensions.PreviousTokenIsPrevious | src/Xakpc.VisualStudio.Extensions.HtmxPal/Extensions/SnapshotPointExtensions.cs:114-133 | for a token at a later line start the result is the empty span one before that line. Otherwise the result is the maximal token run that ends where the white space before the token begins |
| SnapshotPointExtensions.GetPreviousToken | src/Xakpc.VisualStudio.Extensions.HtmxPal/Extensions/SnapshotPointExtensions.cs:114-133 | the two loops over the line text compute the previous token, including its exception |
| SnapshotPointExtensions.PreviousTokenBounds | src/Xakpc.VisualStudio.Extensions.HtmxPal/Extensions/SnapshotPointExtensions.cs:126-132 | the span built from the two scan results is the previous token |
| SnapshotPointExtensions.SkipWhiteSpaceBack | src/Xakpc.VisualStudio.Extensions.HtmxPal/Extensions/SnapshotPointExtensions.cs:120-124 | the first loop starts one before the token and stops where the white space before it begins, or at -1 for a token at the line start |
| SnapshotPointExtensions.SkipTokenBack | src/Xakpc.VisualStudio.Extensions.HtmxPal/Extensions/SnapshotPointExtensions.cs:126-130 | the second loop stops at the start of the token run that ends at the first loop's stop |
| SnapshotPointExtensions.NameStart | src/Xakpc.VisualStudio.Extensions.HtmxPal/Extensions/SnapshotPointExtensions.cs:28-38 | the backward name scan stops just after the nearest white space or `>` above the line start, or at the line start, and crosses no boundary |
| SnapshotPointExtensions.ScanNameStart | src/Xakpc.VisualStudio.Extensions.HtmxPal/Extensions/SnapshotPointExtensions.cs:28-38 | the loop computes that stop, or -1 when the point is 2 |
| SnapshotPointExtensions.NameStartAfterBoundary | src/Xakpc.VisualStudio.Extensions.HtmxPal/Extensions/SnapshotPointExtensions.cs:28-38 | when a boundary precedes a boundary-free stretch, the scan stops right after that boundary |
| SnapshotPointExtensions.HxAttributeAt | src/Xakpc.VisualStudio.Extensions.HtmxPal/Extensions/SnapshotPointExtensions.cs:16-49 | throws exactly at position 1, or at position 2 after `="`. Otherwise it reports an attribute exactly when the point follows `="` and the name before it starts with `hx-`; the attribute is that name |
| SnapshotPointExtensions.IsInsideHxAttribute | src/Xakpc.VisualStudio.Extensions.HtmxPal/Extensions/SnapshotPointExtensions.cs:16-49 | the method with its backward loop computes that probe |
| SnapshotPointExtensions.HxGetNameStart | src/Xakpc.VisualStudio.Extensions.HtmxPal/Extensions/SnapshotPointExtensions.cs:28-38 | in `<div hx-get="">` the name scan from the `t` stops at the `h` of `hx-get` |
| SnapshotPointExtensions.HxAttributeAfterQuote | test/Xakpc.VisualStudio.Extensions.Htmx.Tests/IsInsideHxAttributeTests.cs:18-30 | just after `="` in `<div hx-get="">` the point is inside attribute `hx-get` |
| SnapshotPointExtensions.HxAttributeAtQuote | test/Xakpc.VisualStudio.Extensions.Htmx.Tests/IsInsideHxAttributeTests.cs:18-30 | at position 12, between `=` and `"`, the code reports no attribute, unlike the test's expectation |
| SnapshotPointExtensions.ClassNameStart | src/Xakpc.VisualStudio.Extensions.HtmxPal/Extensions/SnapshotPointExtensions.cs:28-38 | in `<div class="test">` the name scan stops at the `c` of `class` |
| SnapshotPointExtensions.HxAttributeNotHx | src/Xakpc.VisualStudio.Extensions.HtmxPal/Extensions/SnapshotPointExtensions.cs:42-48 | after `class="` no attribute is reported, because the name does not start with `hx-` |
| MarkdownConverter.BlockContainer | src/Xakpc.VisualStudio.Extensions.HtmxPal/Services/MarkdownConverter.cs:35 | a paragraph becomes a container styled Stacked alone, with one text element per element, in order |
| MarkdownConverter.IndexOfDoubleStar | src/Xakpc.VisualStudio.Extensions.HtmxPal/Services/MarkdownConverter.cs:93 | finds the first `**` at or after the start position, or reports that there is none |
| MarkdownConverter.IndexOfChar | src/Xakpc.VisualStudio.Extensions.HtmxPal/Services/MarkdownConverter.cs:109 | finds the first occurrence of the character at or after the start position, or reports that there is none |
| MarkdownConverter.IndexOfSpecial | src/Xakpc.VisualStudio.Extensions.HtmxPal/Services/MarkdownConverter.cs:125 | finds the first `*` or backtick at or after the start position, or reports that there is none |
| MarkdownConverter.Bullet | src/Xakpc.VisualStudio.Extensions.HtmxPal/Services/MarkdownConverter.cs:83-87 | a leading `-` becomes `•`; the rest of the line is unchanged and its length is kept |
| MarkdownConverter.InlineFrom | src/Xakpc.VisualStudio.Extensions.HtmxPal/Services/MarkdownConverter.cs:89-138 | the scan from a position either hangs or returns runs, and never more runs than characters left, because each run consumes at least one character |
| MarkdownConverter.InlineRuns | src/Xakpc.VisualStudio.Extensions.HtmxPal/Services/MarkdownConverter.cs:78-142 | when a line's runs are computed, restoring their markers gives back the line, with a leading `-` shown as `•` |
| MarkdownConverter.ScanRun | src/Xakpc.VisualStudio.Extensions.HtmxPal/Services/MarkdownConverter.cs:89-138 | one iteration of the inline loop: it hangs, ends the line with its last run, or emits a run and moves strictly forward, as the inline specification does |
| MarkdownConverter.ScanBold | src/Xakpc.VisualStudio.Extensions.HtmxPal/Services/MarkdownConverter.cs:91-105 | an opening `**` yields the bold run up to the closing `**`, or the plain rest of the line when there is none |
| MarkdownConverter.ScanCode | src/Xakpc.VisualStudio.Extensions.HtmxPal/Services/MarkdownConverter.cs:107-121 | a backtick yields the code run up to the closing backtick, or the plain rest of the line when there is none |
| MarkdownConverter.ScanPlain | src/Xakpc.VisualStudio.Extensions.HtmxPal/Services/MarkdownConverter.cs:123-138 | other text yields the plain run up to the next `*` or backtick, the plain rest of the line, or no progress at a lone `*` |
| MarkdownConverter.ProcessInlineElements | src/Xakpc.VisualStudio.Extensions.HtmxPal/Services/MarkdownConverter.cs:78-142 | the loop computes the runs of the inline specification, including the hang |
| MarkdownConverter.RoundTripCons | src/Xakpc.VisualStudio.Extensions.HtmxPal/Services/MarkdownConverter.cs:89-138 | a run whose markup is the scanned slice, followed by runs that reproduce the rest, reproduces the line from that point |
| MarkdownConverter.BoldStep | src/Xakpc.VisualStudio.Extensions.HtmxPal/Services/MarkdownConverter.cs:91-99 | a closed bold marker emits the text between the markers and resumes after the closing `**` |
| MarkdownConverter.BoldSource | src/Xakpc.VisualStudio.Extensions.HtmxPal/Services/MarkdownConverter.cs:96 | the bold run with its markers restored is exactly the scanned slice |
| MarkdownConverter.CodeStep | src/Xakpc.VisualStudio.Extensions.HtmxPal/Services/MarkdownConverter.cs:107-114 | a closed code span emits the text between the backticks and resumes after the closing one |
| MarkdownConverter.CodeSource | src/Xakpc.VisualStudio.Extensions.HtmxPal/Services/MarkdownConverter.cs:112 | the code run with its backticks restored is exactly the scanned slice |
| MarkdownConverter.PlainStep | src/Xakpc.VisualStudio.Extensions.HtmxPal/Services/MarkdownConverter.cs:132-137 | plain text up to a later `*` or backtick is one plain run, and scanning resumes at that character |
| MarkdownConverter.PlainTail | src/Xakpc.VisualStudio.Extensions.HtmxPal/Services/MarkdownConverter.cs:126-131 | a single plain run of the rest of the line reproduces that rest |
| MarkdownConverter.InlineStep | src/Xakpc.VisualStudio.Extensions.HtmxPal/Services/MarkdownConverter.cs:89-138 | each iteration that returns consumes a non-empty slice whose run, markup restored, is that slice |
| MarkdownConverter.LastRun | src/Xakpc.VisualStudio.Extensions.HtmxPal/Services/MarkdownConverter.cs:126-131 | the final plain run is the same as one run followed by the end of the line |
| MarkdownConverter.UnterminatedRun | src/Xakpc.VisualStudio.Extensions.HtmxPal/Services/MarkdownConverter.cs:100-121 | an unclosed `**` or backtick makes the rest of the line, markers included, one plain run |
| MarkdownConverter.UnterminatedNext | src/Xakpc.VisualStudio.Extensions.HtmxPal/Services/MarkdownConverter.cs:100-121 | an unclosed marker consumes the rest of the line as one run that reproduces it |
| MarkdownConverter.BoldNext | src/Xakpc.VisualStudio.Extensions.HtmxPal/Services/MarkdownConverter.cs:91-105 | at `**` the scanner always consumes a non-empty slice that its run reproduces |
| MarkdownConverter.BoldClosed | src/Xakpc.VisualStudio.Extensions.HtmxPal/Services/MarkdownConverter.cs:94-98 | a closed bold marker resumes strictly later, after the closing `**`, and the rest of the scan continues from there |
| MarkdownConverter.CodeNext | src/Xakpc.VisualStudio.Extensions.HtmxPal/Services/MarkdownConverter.cs:107-121 | at a backtick the scanner always consumes a non-empty slice that its run reproduces |
| MarkdownConverter.CodeClosed | src/Xakpc.VisualStudio.Extensions.HtmxPal/Services/MarkdownConverter.cs:110-114 | a closed code span resumes strictly later, after the closing backtick, and the rest of the scan continues from there |
| MarkdownConverter.PlainNext | src/Xakpc.VisualStudio.Extensions.HtmxPal/Services/MarkdownConverter.cs:123-138 | at other text, whenever the line converts, the scanner consumes a non-empty slice that its run reproduces |
| MarkdownConverter.InlineRoundTrip | src/Xakpc.VisualStudio.Extensions.HtmxPal/Services/MarkdownConverter.cs:78-142 | when inline processing returns, restoring each run's markers gives back the line exactly, so no text is lost or reordered |
| MarkdownConverter.LoneStarDiverges | src/Xakpc.VisualStudio.Extensions.HtmxPal/Services/MarkdownConverter.cs:132-137 | a `*` not followed by another `*` leaves the index unchanged, so the loop never ends |
| MarkdownConverter.NoStarTerminates | src/Xakpc.VisualStudio.Extensions.HtmxPal/Services/MarkdownConverter.cs:89-138 | a line without `*` always finishes |
| MarkdownConverter.PlainRest | src/Xakpc.VisualStudio.Extensions.HtmxPal/Services/MarkdownConverter.cs:125-131 | text without `*` or backticks is one plain run |
| MarkdownConverter.NextSpecialAt | src/Xakpc.VisualStudio.Extensions.HtmxPal/Services/MarkdownConverter.cs:125 | the next special character is the first `*` or backtick after the start position |
| MarkdownConverter.BoldLayout | src/Xakpc.VisualStudio.Extensions.HtmxPal/Services/MarkdownConverter.cs:91-93 | in `**b**` with star-free `b`, the opening marker is recognised and the closing one is the first after it |
| MarkdownConverter.BoldRun | src/Xakpc.VisualStudio.Extensions.HtmxPal/Services/MarkdownConverter.cs:91-99 | `**b**` with star-free `b` emits the bold run `b` and resumes after it |
| MarkdownConverter.CodeLayout | src/Xakpc.VisualStudio.Extensions.HtmxPal/Services/MarkdownConverter.cs:107-109 | in a backtick-quoted text without backticks, the closing backtick is the first one after the opening |
| MarkdownConverter.CodeRun | src/Xakpc.VisualStudio.Extensions.HtmxPal/Services/MarkdownConverter.cs:107-114 | a backtick-quoted text without backticks emits that code run and resumes after it |
| MarkdownConverter.UnterminatedMarker | src/Xakpc.VisualStudio.Extensions.HtmxPal/Services/MarkdownConverter.cs:100-121 | an unclosed marker ends the line with one plain run that keeps the marker |
| MarkdownConverter.BoldThenText | src/Xakpc.VisualStudio.Extensions.HtmxPal/Services/MarkdownConverter.cs:89-138 | `**b**` followed by plain text yields a bold run and a plain run |
| MarkdownConverter.BoldInText | src/Xakpc.VisualStudio.Extensions.HtmxPal/Services/MarkdownConverter.cs:78-142 | plain text, then `**b**`, then plain text gives exactly three runs: plain, bold, plain |
| MarkdownConverter.PlainThenBold | src/Xakpc.VisualStudio.Extensions.HtmxPal/Services/MarkdownConverter.cs:89-138 | a line of plain text, a bold span and plain text scans to exactly those three runs |
| MarkdownConverter.BoldExample | test/Xakpc.VisualStudio.Extensions.Htmx.Tests/MarkdownConverterTests.cs:30-45 | "This has **bold** text." gives the runs "This has ", bold "bold" and " text." |
| MarkdownConverter.FenceEnd | src/Xakpc.VisualStudio.Extensions.HtmxPal/Services/MarkdownConverter.cs:45-49 | the fence search finds the first untrimmed line starting with three backticks, or the end of the lines |
| MarkdownConverter.IsFence | src/Xakpc.VisualStudio.Extensions.HtmxPal/Services/MarkdownConverter.cs:40-45 | a line opens or closes a fenced block exactly when it starts with three backticks (`StartsWith("```")`) |
| MarkdownConverter.CollectCode | src/Xakpc.VisualStudio.Extensions.HtmxPal/Services/MarkdownConverter.cs:43-49 | the inner loop stops at the closing fence and has appended exactly the lines before it |
| MarkdownConverter.Flush | src/Xakpc.VisualStudio.Extensions.HtmxPal/Services/MarkdownConverter.cs:64-68 | closing a paragraph emits one block exactly when elements are pending |
| MarkdownConverter.Advance | src/Xakpc.VisualStudio.Extensions.HtmxPal/Services/MarkdownConverter.cs:28-60 | one iteration of the line loop always moves forward |
| MarkdownConverter.BlocksFromStep | src/Xakpc.VisualStudio.Extensions.HtmxPal/Services/MarkdownConverter.cs:26-61 | a returning iteration emits the blocks it closes, followed by what the remaining lines produce |
| MarkdownConverter.ConvertLine | src/Xakpc.VisualStudio.Extensions.HtmxPal/Services/MarkdownConverter.cs:28-60 | the loop body computes that iteration: closed blocks, next line, pending elements, or the hang |
| MarkdownConverter.Convert | src/Xakpc.VisualStudio.Extensions.HtmxPal/Services/MarkdownConverter.cs:18-71 | the converter's loop computes the specified blocks |
| MarkdownConverter.Converted | src/Xakpc.VisualStudio.Extensions.HtmxPal/Services/MarkdownConverter.cs:18-71 | every paragraph the conversion returns holds at least one element |
| MarkdownConverter.AdvanceShape | src/Xakpc.VisualStudio.Extensions.HtmxPal/Services/MarkdownConverter.cs:28-60 | a blank line closes the pending paragraph. Any other line only appends its elements to it, and the pending elements do not affect where the loop goes next |
| MarkdownConverter.BlocksNonEmpty | src/Xakpc.VisualStudio.Extensions.HtmxPal/Services/MarkdownConverter.cs:33-38 | no paragraph the converter emits is empty |
| MarkdownConverter.BlocksFlatten | src/Xakpc.VisualStudio.Extensions.HtmxPal/Services/MarkdownConverter.cs:18-71 | the paragraphs, put back together, are the pending elements followed by every line's elements in order; paragraphing loses and reorders nothing |
| MarkdownConverter.FlattenFlush | src/Xakpc.VisualStudio.Extensions.HtmxPal/Services/MarkdownConverter.cs:64-68 | the flushed paragraph holds exactly the pending elements |
| MarkdownConverter.BlankLinesNoBlocks | src/Xakpc.VisualStudio.Extensions.HtmxPal/Services/MarkdownConverter.cs:30-38 | lines that are all blank produce no paragraph |
| MarkdownConverter.WhiteSpaceConvertsToNothing | test/Xakpc.VisualStudio.Extensions.Htmx.Tests/MarkdownConverterTests.cs:114-125 | empty or all-white-space markdown converts to no containers |
| MarkdownConverter.NoBlankLineOneBlock | src/Xakpc.VisualStudio.Extensions.HtmxPal/Services/MarkdownConverter.cs:30-38 | without a blank line there is at most one paragraph |
| MarkdownConverter.FenceAdvance | src/Xakpc.VisualStudio.Extensions.HtmxPal/Services/MarkdownConverter.cs:40-55 | an opening fence adds one markup element holding the lines up to the closing fence, and the loop resumes after it |
| MarkdownConverter.FenceFirstStep | src/Xakpc.VisualStudio.Extensions.HtmxPal/Services/MarkdownConverter.cs:40-55 | a fence, two code lines and a closing fence make one element holding the two lines run together, right-trimmed |
| MarkdownConverter.FencedTwoLines | src/Xakpc.VisualStudio.Extensions.HtmxPal/Services/MarkdownConverter.cs:45-52 | the fenced text of two lines is their concatenation with the end trimmed |
| MarkdownConverter.FenceJoinsLines | src/Xakpc.VisualStudio.Extensions.HtmxPal/Services/MarkdownConverter.cs:43-54 | such a four-line document converts to a single paragraph with that single markup element; no line separator is inserted |
| MarkdownConverter.TextLineOneElement | src/Xakpc.VisualStudio.Extensions.HtmxPal/Services/MarkdownConverter.cs:56-60 | a non-blank, non-fence line appends exactly its trimmed line's inline runs |
| MarkdownConverter.PlainLine | src/Xakpc.VisualStudio.Extensions.HtmxPal/Services/MarkdownConverter.cs:78-142 | a line without markers is one plain run of the line with its leading dash turned into a bullet |
| MarkdownConverter.BlankLineCloses | src/Xakpc.VisualStudio.Extensions.HtmxPal/Services/MarkdownConverter.cs:30-38 | a blank line emits the pending paragraph, if any, and starts a new one |
| ContainerElementHelper.Containers | src/Xakpc.VisualStudio.Extensions.HtmxPal/Helpers/ContainerElementHelper.cs:36 | one stacked container per converted paragraph, in order |
| ContainerElementHelper.RichContent | src/Xakpc.VisualStudio.Extensions.HtmxPal/Helpers/ContainerElementHelper.cs:32-39 | returns exactly when the conversion returns and hangs exactly when it hangs. The result is a container styled `RichStyle` (Stacked and VerticalPadding) whose children are the converted paragraphs' containers, one per paragraph and in order |
| ContainerElementHelper.RichContentWithLink | src/Xakpc.VisualStudio.Extensions.HtmxPal/Helpers/ContainerElementHelper.cs:16-25 | the linked overload is the one-argument content with one Wrapped hyperlink block appended, and fails exactly when that one fails |
| ContainerElementHelper.ParagraphChildren | src/Xakpc.VisualStudio.Extensions.HtmxPal/Helpers/ContainerElementHelper.cs:36-38 | every child of the rich content is a non-empty Stacked container of text elements |
| ContainerElementHelper.LinkIsLastAndOnlyWrappedChild | src/Xakpc.VisualStudio.Extensions.HtmxPal/Helpers/ContainerElementHelper.cs:20-24 | in the linked content the hyperlink block is the last child and the only Wrapped one |
| ContainerElementHelper.LinkBlockHoldsReference | src/Xakpc.VisualStudio.Extensions.HtmxPal/Helpers/ContainerElementHelper.cs:41-46 | the appended link block is a Wrapped container holding one hyperlink, captioned "HTMX Reference", whose target is the link |
| ContainerElementHelper.LinkAfterParagraphs | src/Xakpc.VisualStudio.Extensions.HtmxPal/Helpers/ContainerElementHelper.cs:21-22 | appending the link block after Stacked paragraphs makes it last and the only Wrapped child |
| ContainerElementHelper.BlankDescription | src/Xakpc.VisualStudio.Extensions.HtmxPal/Helpers/ContainerElementHelper.cs:16-25 | a blank page gives an empty container, or only the link block in the linked overload |
| TooltipsProvider.Url | src/Xakpc.VisualStudio.Extensions.HtmxPal/Services/TooltipsProvider.cs:61 | the documentation link is `https://htmx.org/attributes/`, then the key, then `/` |
| TooltipsProvider.Stems | src/Xakpc.VisualStudio.Extensions.HtmxPal/Services/TooltipsProvider.cs:36-37 | the keywords are the file names without extension, one per file, in listing order |
| TooltipsProvider.ToolTipsProvider.constructor | src/Xakpc.VisualStudio.Extensions.HtmxPal/Services/TooltipsProvider.cs:33-38 | the keywords are the stems of the folder's files and the cache starts empty |
| TooltipsProvider.ToolTipsProvider.TryGetValue | src/Xakpc.VisualStudio.Extensions.HtmxPal/Services/TooltipsProvider.cs:47-72 | a cached key is returned unchanged and a non-keyword gives nothing. A keyword is read, rendered (with the link when asked), cached and returned; a read or render failure is passed on and caches nothing |
| TooltipsProvider.KeywordsHaveFiles | src/Xakpc.VisualStudio.Extensions.HtmxPal/Services/TooltipsProvider.cs:55-59 | for a `.md` file the keyword's path names that file, so reading it returns its text |
| TooltipsProvider.MarkdownStem | src/Xakpc.VisualStudio.Extensions.HtmxPal/Services/TooltipsProvider.cs:91-94 | the attribute path of a markdown file's keyword names that file again |
| TooltipsProvider.ReadAllTextFirst | src/Xakpc.VisualStudio.Extensions.HtmxPal/Services/TooltipsProvider.cs:59 | reading a file name that no earlier file has returns that file's text |
| AttributeTooltipsProvider.Entries | src/Xakpc.VisualStudio.Extensions.HtmxPal/Services/AttributeToolTipsProvider.cs:43-54 | a folder has at most one entry per file, and exactly one per file when every file is a `.md` file |
| AttributeTooltipsProvider.EntriesAppend | src/Xakpc.VisualStudio.Extensions.HtmxPal/Services/AttributeToolTipsProvider.cs:43-54 | listing order is kept: the entries of two runs of files are the first run's entries followed by the second's |
| AttributeTooltipsProvider.EntrySource | src/Xakpc.VisualStudio.Extensions.HtmxPal/Services/AttributeToolTipsProvider.cs:43-53 | every entry comes from a `.md` file: its key is the file's stem and its page is the file's text |
| AttributeTooltipsProvider.MarkdownHasEntry | src/Xakpc.VisualStudio.Extensions.HtmxPal/Services/AttributeToolTipsProvider.cs:43-53 | every `.md` file of the folder has its entry |
| AttributeTooltipsProvider.ReadEntries | src/Xakpc.VisualStudio.Extensions.HtmxPal/Services/AttributeToolTipsProvider.cs:42-54 | the file loop builds exactly the folder's entries, in order |
| AttributeTooltipsProvider.FirstWithKey | src/Xakpc.VisualStudio.Extensions.HtmxPal/Services/AttributeToolTipsProvider.cs:89 | finds the first entry with the key, or reports that none has it |
| AttributeTooltipsProvider.Keys | src/Xakpc.VisualStudio.Extensions.HtmxPal/Services/AttributeToolTipsProvider.cs:69 | the keywords of a list are its entries' keys, in order |
| AttributeTooltipsProvider.RegistryKeySource | src/Xakpc.VisualStudio.Extensions.HtmxPal/Services/AttributeToolTipsProvider.cs:33-56 | every registered attribute is the stem of some folder that is not skipped |
| AttributeTooltipsProvider.RegistryFirstWins | src/Xakpc.VisualStudio.Extensions.HtmxPal/Services/AttributeToolTipsProvider.cs:56 | the first non-skipped folder with a given stem is registered, with its own entries; later folders with the same stem are ignored |
| AttributeTooltipsProvider.AttributeToolTipsProvider.constructor | src/Xakpc.VisualStudio.Extensions.HtmxPal/Services/AttributeToolTipsProvider.cs:29-58 | the folder loop builds the registry, and no page is rendered yet |
| AttributeTooltipsProvider.AttributeToolTipsProvider.GetKeywords | src/Xakpc.VisualStudio.Extensions.HtmxPal/Services/AttributeToolTipsProvider.cs:65-74 | known attributes give their value keywords in order; unknown ones give nothing |
| AttributeTooltipsProvider.KeywordsOfFolder | src/Xakpc.VisualStudio.Extensions.HtmxPal/Services/AttributeToolTipsProvider.cs:29-74 | each keyword that GetKeywords lists for a folder's attribute is the stem of one of that folder's `.md` files |
| AttributeTooltipsProvider.AttributeToolTipsProvider.TryGetValue | src/Xakpc.VisualStudio.Extensions.HtmxPal/Services/AttributeToolTipsProvider.cs:83-95 | an unknown attribute gives nothing, and an unknown value throws NullReference. A known value's page is rendered once, kept and returned from then on; a failed render is passed on |
| HtmxQuickInfoSource.AttributeText | src/Xakpc.VisualStudio.Extensions.HtmxPal/HtmxQuickInfoSource.cs:137-172 | hovered text, when found, is the whole token under the point and has at least 3 characters |
| HtmxQuickInfoSource.AttributeTextIff | src/Xakpc.VisualStudio.Extensions.HtmxPal/HtmxQuickInfoSource.cs:137-172 | text is found exactly when the token has at least 3 characters and either ends at the point or starts with `hx` |
| HtmxQuickInfoSource.GetAttributeText | src/Xakpc.VisualStudio.Extensions.HtmxPal/HtmxQuickInfoSource.cs:137-172 | the two loops compute that text |
| HtmxQuickInfoSource.ScanBack | src/Xakpc.VisualStudio.Extensions.HtmxPal/HtmxQuickInfoSource.cs:144-148 | the backward loop stops at the token start, and its buffer holds the token's text up to the point |
| HtmxQuickInfoSource.ScanForward | src/Xakpc.VisualStudio.Extensions.HtmxPal/HtmxQuickInfoSource.cs:152-171 | the forward loop gives up on a token not starting with `hx` that extends past the point, or one shorter than 3; otherwise it gives the whole token |
| HtmxQuickInfoSource.BuildQuickInfoElements | src/Xakpc.VisualStudio.Extensions.HtmxPal/HtmxQuickInfoSource.cs:96-130 | no text or a non-keyword gives no tooltip and leaves the cache alone. A cached keyword gives its cached element. An uncached keyword is rendered with its reference link, cached and shown. A read or render failure is passed on and caches nothing. Any tooltip shown is the cache's element for a keyword |
| HtmxCompletionSource.ConvertToItem | src/Xakpc.VisualStudio.Extensions.HtmxPal/HtmxCompletionSource.cs:90-104 | display, sort and filter texts are the keyword. `hx-on` inserts `hx-on:`; any other keyword `k` inserts exactly `k=""` |
| HtmxCompletionSource.InsertTextDeterminesKeyword | src/Xakpc.VisualStudio.Extensions.HtmxPal/HtmxCompletionSource.cs:92 | different keywords never get the same insert text |
| HtmxCompletionSource.CompletionContext | src/Xakpc.VisualStudio.Extensions.HtmxPal/HtmxCompletionSource.cs:81-88 | one item per keyword, in keyword order |
| HtmxCompletionSource.InitializeCompletion | src/Xakpc.VisualStudio.Extensions.HtmxPal/HtmxCompletionSource.cs:127-147 | outside a tag the source does not take part; when it does, its span is the containing token |
| HtmxCompletionSource.InitializeCompletionIff | src/Xakpc.VisualStudio.Extensions.HtmxPal/HtmxCompletionSource.cs:127-147 | the source always answers, and takes part exactly inside a tag when the token at the caret starts with `hx` in any case, or when `-` was typed and the previous token is `hx` in any case |
| HtmxCompletionSource.HxDashSubsumed | src/Xakpc.VisualStudio.Extensions.HtmxPal/HtmxCompletionSource.cs:139-140 | a token starting with `hx-` already starts with `hx`, so the second test adds nothing |
| HtmxCompletionSource.InitializeCompletionNeverThrows | src/Xakpc.VisualStudio.Extensions.HtmxPal/HtmxCompletionSource.cs:135-141 | the previous-token lookup never throws here, because inside a tag the token cannot start at position 0 |
| HtmxCompletionSource.Interleaved | src/Xakpc.VisualStudio.Extensions.HtmxPal/HtmxCompletionSource.cs:111 | n elements interleave into 2n-1 slots |
| HtmxCompletionSource.InterleavedIndex | src/Xakpc.VisualStudio.Extensions.HtmxPal/HtmxCompletionSource.cs:112-119 | even slots hold the elements in order and odd slots hold the white-space separator |
| HtmxCompletionSource.Interleave | src/Xakpc.VisualStudio.Extensions.HtmxPal/HtmxCompletionSource.cs:110-119 | the array loop builds the interleaving; with no elements the array size is negative and it throws |
| HtmxCompletionSource.GetDescription | src/Xakpc.VisualStudio.Extensions.HtmxPal/HtmxCompletionSource.cs:106-125 | a non-keyword gives nothing and leaves the cache alone. A cached page, or an uncached keyword's page rendered without the link and then cached, gives its children interleaved with spaces in a Wrapped copy of its style. Such a page without children throws. A read or render failure is passed on and caches nothing |
| HtmxAttributesCompletionSource.ConvertToItem | src/Xakpc.VisualStudio.Extensions.HtmxPal/HtmxAttributesCompletionSource.cs:130-143 | every text of a value item is the keyword itself |
| HtmxAttributesCompletionSource.InitializeCompletion | src/Xakpc.VisualStudio.Extensions.HtmxPal/HtmxAttributesCompletionSource.cs:107-123 | outside a tag the source does not take part; when it does, its span is empty at the point |
| HtmxAttributesCompletionSource.InitializeCompletionIff | src/Xakpc.VisualStudio.Extensions.HtmxPal/HtmxAttributesCompletionSource.cs:107-123 | it takes part exactly inside a tag and just after `="` of an `hx-` attribute |
| HtmxAttributesCompletionSource.InitializeCompletionThrowsAfterOpeningBracket | src/Xakpc.VisualStudio.Extensions.HtmxPal/HtmxAttributesCompletionSource.cs:109-114 | right after a `<` at the start of the text, the attribute probe throws |
| HtmxAttributesCompletionSource.GetCompletionContext | src/Xakpc.VisualStudio.Extensions.HtmxPal/HtmxAttributesCompletionSource.cs:62-80 | throws exactly when the probe does. The items are the registered values of the attribute under the point, in order, each item's display, insert, sort and filter text being the value's keyword; outside an attribute, or for an unregistered one, there are none |
| HtmxAttributesCompletionSource.GetDescription | src/Xakpc.VisualStudio.Extensions.HtmxPal/HtmxAttributesCompletionSource.cs:89-98 | an unknown attribute gives nothing and an unknown value throws. The first entry with the item's keyword gives its page: the forced one, or a page rendered now and kept. A render failure is passed on and forces nothing. A shown description is the rendered page of that entry |
| HtmxCompletionCommitManager.ShouldCommitCompletion | src/Xakpc.VisualStudio.Extensions.HtmxPal/HtmxCompletionCommitManager.cs:37-40 | every typed character commits |
| HtmxCompletionCommitManager.Replace | src/Xakpc.VisualStudio.Extensions.HtmxPal/HtmxCompletionCommitManager.cs:52 | the edited text's length changes by the insert length minus the replaced span's length |
| HtmxCompletionCommitManager.IsAttributeInsert | src/Xakpc.VisualStudio.Extensions.HtmxPal/HtmxCompletionCommitManager.cs:45 | an insert text is committed here exactly when it starts with `hx` and ends with `=""`, which cannot overlap, so it has at least 5 characters |
| HtmxCompletionCommitManager.TryCommit | src/Xakpc.VisualStudio.Extensions.HtmxPal/HtmxCompletionCommitManager.cs:42-65 | the commit is handled exactly for an `hx…=""` item. It then replaces the span and puts the caret one before the insert's end; otherwise text and caret are unchanged |
| HtmxCompletionCommitManager.CaretBetweenQuotes | src/Xakpc.VisualStudio.Extensions.HtmxPal/HtmxCompletionCommitManager.cs:50-58 | after the commit the caret sits between the quotes of `=""`, and the text before and after the span is unchanged |
| HtmxCompletionCommitManager.KeywordItemHandled | src/Xakpc.VisualStudio.Extensions.HtmxPal/HtmxCompletionCommitManager.cs:45 | an attribute item is handled exactly when its keyword starts with `hx` and is not `hx-on` |

## Left out

- `Text.IsLetterOrDigit` covers ASCII letters and digits only. The source's `char.IsLetterOrDigit` also accepts every other Unicode letter and digit, and a Unicode character table is out of scope.
- Culture-sensitive `string.StartsWith` and `IndexOf` are modelled as ordinal comparisons. Ignore-case comparisons fold the ASCII letters only.
- `ContainerElementStyle` is a set of flags; the enum's numeric values play no part.
- The file system is a directory listing passed in as a value. `Directory.GetFiles(directory, "*.md")` is modelled as a case-insensitive `.md` suffix test, without the three-character extension quirk of the Windows pattern. `ToolTipsProvider` lists every file of its folder; a keyword whose file is not `name.md` fails to read with FileNotFound.
- FileSystem.ReadAllText: file names are compared exactly (ordinal, case-sensitive). `File.ReadAllText` on Windows matches names ignoring case. So a keyword listed from `hx-get.MD` reads `hx-get.md` and fails here with FileNotFound, where the extension finds the file. Case-insensitive file names are not modelled.
- TooltipsProvider.ToolTipsProvider.constructor: the two renderers are fields the constructor sets to the two `CreateRichContent` overloads. This keeps lookups from unfolding the converter; their behaviour is unchanged.
- AttributeTooltipsProvider.AttributeToolTipsProvider.constructor: a page's markdown is read when the folder is listed, not lazily on first use. The `Lazy` cell is modelled as rendering on first use and keeping the result.
- `Process.Start` behind the hyperlink's click action is left out; the link keeps its URL.
- Threads, `async`/`Task`, `ConcurrentDictionary` and MEF provider singletons are left out. The providers are plain objects, and each call is one atomic step.
- HtmxAttributesCompletionSource.GetDescription: the attribute that `GetCompletionContextAsync` stores in the session's properties is a parameter here.
- HtmxQuickInfoSource.BuildQuickInfoElements: the applicable span from `GetExtentOfWord` is left out, and so is the missing trigger point case. Only the element is modelled.
- The `HtmxQuickInfoController` and the `Output` logging helper are not part of this model.
- `ProcessInlineElements` on a `*` not followed by another `*` sets the index to itself and loops forever. Each turn of that loop also appends an empty plain run, so the real process ends with an `OutOfMemoryException` once the run list cannot grow. The model makes the hang an explicit `Diverges` outcome, which stands for both the endless loop and that exception. Every caller passes it on.
