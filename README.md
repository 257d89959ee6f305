# ABNT formatter — a Dafny model

The ABNT formatter is a small web application. It takes a Word file, lets the user pick
formatting options, shows the figures it found and walks a progress panel. An edge
function, `generate-pdf`, turns the filename, the options and the figures into an HTML
document laid out to the Brazilian ABNT norms. The document has:

- a running header and a page number, each optional;
- an upper-case title page;
- the numbered sections "1 INTRODUÇÃO", "2 FIGURAS" (only when there are figures) and "CONSIDERAÇÕES FINAIS";
- one placeholder per figure, with "Figura {id} - {name}" and a source line when captions are on.

This project models that composer and the page's client-side logic. It proves what the
composed document contains and how the options, the figure captions and the conversion
steps change. It also shows where the two previews agree with the server's document and
where they do not.

Modules, one per source file:

| file | module | models |
|---|---|---|
| `wrappers.dfy` | `Wrappers` | the `Option` type |
| `format_options.dfy` | `FormatOptions` | the options record, `updateOption`, the toggles and the offered values |
| `processing_status.dfy` | `ProcessingStatus` | the steps, `getStepStatus` and the progress panel |
| `figures_list.dfy` | `FiguresList` | the figure record, the rows, and the caption editor as a class (`editingId`, `editValue`) |
| `index_page.dfy` | `IndexPage` | the page as a class with its handlers; `handleConvert` as a loop; the caption map |
| `generate_pdf.dfy` | `GeneratePdf` | the strip regex, the CSS choices, the document composer and the request handler |
| `document_preview_modal.dfy` | `DocumentPreviewModal` | the preview dialog, with agreement lemmas against the composer |
| `document_preview.dfy` | `DocumentPreview` | the preview card, with agreement lemmas against the composer |

The composed document is a tree, not text. It is a title, a page style and a sequence of
blocks: header, page number, title page, page break and numbered sections. A section holds
paragraphs and figure blocks. The fixed paragraphs are symbols; `ParagraphText` gives
their wording. Properties of the document are stated by reading blocks of one kind back
out of the body (`Select`, `FigureBlocksIn`).

Points where the code is modelled as written:

- The filename is stripped with the case-insensitive, unanchored, non-global pattern
  `\.(docx?)`. Only the leftmost ".doc"/".docx" is removed, wherever it sits in the name.
  "my.document.docx" becomes "myument.docx".
- Captions are numbered with the figure's `id`, not with its position in the list.
- Any margins value other than "abnt" gives the 2.5 cm rule. Any spacing other than "1.5"
  or "2.0" gives line height 1.4. Unrecognised values are never rejected.
- `saveEdit` clears the editing id but not `editValue`. `cancelEdit` clears both.
- Selecting a file does not reset the processing step.

## Model

| member | source | states |
|---|---|---|
| FormatOptions.FieldKinds | src/components/FormatOptions.tsx:4-12 | the options record has exactly four string fields and three boolean fields |
| FormatOptions.Get | src/components/FormatOptions.tsx:4-12 | every field read has its declared type: text for a select field, a flag for a toggle |
| FormatOptions.UpdateOption | src/components/FormatOptions.tsx:20-22 | the updated record holds the new value at the key and every other field unchanged |
| FormatOptions.UpdateToCurrentIsIdentity | src/components/FormatOptions.tsx:20-22 | setting a field to its current value gives an equal record |
| FormatOptions.UpdateOverwrites | src/components/FormatOptions.tsx:20-22 | of two updates to one field the later wins |
| FormatOptions.UpdatesCommute | src/components/FormatOptions.tsx:20-22 | updates to different fields commute |
| FormatOptions.Toggle | src/components/FormatOptions.tsx:94-111 | a toggle click negates that flag and leaves every other field as it was |
| FormatOptions.ToggleTwiceRestores | src/components/FormatOptions.tsx:125-129 | two clicks on a toggle restore the record |
| FormatOptions.Choices | src/components/FormatOptions.tsx:36-89 | each select offers at least two values, with no value repeated |
| FormatOptions.PanelKeepsRecognised | src/components/FormatOptions.tsx:36-111 | changes made through the panel keep every select field among its offered values |
| ProcessingStatus.IndexOf | src/components/ProcessingStatus.tsx:22-23 | the result is the first position of the step, or -1 exactly when it is absent |
| ProcessingStatus.IndexOfStepOrderIsRank | src/components/ProcessingStatus.tsx:21-23 | a step's position in the step order is its rank, and -1 for idle |
| ProcessingStatus.GetStepStatus | src/components/ProcessingStatus.tsx:20-28 | everything is complete once the conversion is; only the current step is current, and it is current unless the conversion is complete; the full split by rank is StatusByRank |
| ProcessingStatus.StatusByRank | src/components/ProcessingStatus.tsx:20-28 | earlier steps are complete, the current step is current, later steps are pending, and all are complete once the conversion is complete |
| ProcessingStatus.Render | src/components/ProcessingStatus.tsx:17-18 | the panel is absent exactly while idle; it has one status per listed step; the banner shows exactly when complete |
| ProcessingStatus.CompleteShowsAllComplete | src/components/ProcessingStatus.tsx:25 | at "complete" every listed step is drawn complete |
| ProcessingStatus.StatusesAlongList | src/components/ProcessingStatus.tsx:10-28 | down the list the statuses never rise in the order; at most one step is current; a step is current unless the conversion is complete |
| FiguresList.RowFor | src/components/FiguresList.tsx:47-106 | a row is labelled with the figure's id; it edits exactly when the editing id is that id; it shows the edit value while editing and the name otherwise; it offers the edit button exactly when not editing |
| FiguresList.Render | src/components/FiguresList.tsx:35-47 | the panel is absent exactly for no figures; otherwise its count is the figure count, with one row per figure in order |
| FiguresList.AtMostOneRowEditing | src/components/FiguresList.tsx:52-99 | with distinct ids at most one row edits; with no editing id every row shows its figure's name |
| FiguresList.CaptionEditor.constructor | src/components/FiguresList.tsx:17-18 | the editor starts with no editing id, empty text and nothing sent |
| FiguresList.CaptionEditor.View | src/components/FiguresList.tsx:35-37 | nothing is drawn for an empty list |
| FiguresList.CaptionEditor.StartEditing | src/components/FiguresList.tsx:20-23 | editing that figure, starting from its name; nothing sent |
| FiguresList.CaptionEditor.ChangeText | src/components/FiguresList.tsx:71 | the typed text replaces the edit value; nothing else changes |
| FiguresList.CaptionEditor.SaveEdit | src/components/FiguresList.tsx:25-28 | exactly one update (id, edit value) is sent; editing ends; the edit value is kept |
| FiguresList.CaptionEditor.CancelEdit | src/components/FiguresList.tsx:30-33 | editing ends and the text is cleared; nothing is sent |
| FiguresList.CaptionEditor.KeyDown | src/components/FiguresList.tsx:74-77 | Enter saves, Escape cancels, any other key changes nothing |
| IndexPage.InitialDataProperties | src/pages/Index.tsx:11-26 | the defaults are offered values with every toggle on; the mock ids are distinct and run 1, 2, 3; the convert steps follow the panel's order |
| IndexPage.WithCaption | src/pages/Index.tsx:46-50 | the figures with that id take the caption; ids, original names, order and length are kept, and other figures are untouched |
| IndexPage.Relabel | src/pages/Index.tsx:48 | one figure keeps its id and original name; it takes the caption exactly when its id matches |
| IndexPage.WithCaptionAbsentId | src/pages/Index.tsx:48 | an update for an id no figure has changes nothing |
| IndexPage.WithCaptionIdempotent | src/pages/Index.tsx:48 | applying one update twice equals applying it once |
| IndexPage.WithCaptionCommutes | src/pages/Index.tsx:48 | updates of different ids commute |
| IndexPage.SaveOwnNameIsIdentity | src/pages/Index.tsx:48 | with distinct ids, saving a figure's own name leaves the list unchanged |
| IndexPage.ActionFor | src/pages/Index.tsx:136-156 | convert is offered exactly when idle, download exactly when complete, and no button otherwise |
| IndexPage.Page.constructor | src/pages/Index.tsx:29-32 | no file, the default options, no figures, idle |
| IndexPage.Page.Action | src/pages/Index.tsx:127-156 | no button without a file; otherwise the button for the step |
| IndexPage.Page.ShowsProgress | src/pages/Index.tsx:163-167 | the progress panel shows exactly when a file is selected and the panel renders, that is, the step is not idle; while it shows, no convert button is offered |
| IndexPage.Page.HandleFileSelect | src/pages/Index.tsx:34-38 | the file is taken and the figures become the mock list; the options and the step are kept |
| IndexPage.Page.HandleRemoveFile | src/pages/Index.tsx:40-44 | no file, no figures, idle; the options are kept; no button and no progress panel |
| IndexPage.Page.UpdateFigureCaption | src/pages/Index.tsx:46-50 | the figures become the caption map of the old figures; ids stay distinct; nothing else changes |
| IndexPage.Page.SetOptions | src/pages/Index.tsx:129 | the options are replaced; nothing else changes |
| IndexPage.Page.HandleConvert | src/pages/Index.tsx:52-65 | nothing happens without a file; otherwise the step passes through reading, detecting, formatting, generating and complete in order, ending complete with the download button and the progress panel |
| IndexPage.EditAndSaveUntyped | src/pages/Index.tsx:131-134 | starting an edit and saving it untouched sends one update and leaves the page's figures unchanged |
| GeneratePdf.ToUpperCase | supabase/functions/generate-pdf/index.ts:125 | the upper-cased title has the length of its input |
| GeneratePdf.ToUpperCaseProperties | supabase/functions/generate-pdf/index.ts:125 | upper-casing keeps each letter up to case, leaves no lower-case ASCII letter, and is idempotent |
| GeneratePdf.MatchLength | supabase/functions/generate-pdf/index.ts:71 | a match is ".doc" or, greedily, ".docx" |
| GeneratePdf.FindDoc | supabase/functions/generate-pdf/index.ts:71 | the result is the leftmost match at or after the start, or none exactly when there is no match there |
| GeneratePdf.StripDocExt | supabase/functions/generate-pdf/index.ts:71 | a name is unchanged exactly when it holds no match; otherwise it loses four or five characters |
| GeneratePdf.StripRemovesLeftmostMatch | supabase/functions/generate-pdf/index.ts:71 | the strip removes exactly the leftmost match |
| GeneratePdf.StripAppendedExtension | supabase/functions/generate-pdf/index.ts:71 | a base with no match plus any-case ".doc"/".docx" strips back to the base |
| GeneratePdf.StripIsUnanchored | supabase/functions/generate-pdf/index.ts:71 | the match need not sit at the end: "my.document.docx" strips to "myument.docx" |
| GeneratePdf.OutputFilename | supabase/functions/generate-pdf/index.ts:168 | the output name starts with the stripped name and ends with "_ABNT.pdf", with nothing in between |
| GeneratePdf.OutputFilenameOfWordFile | supabase/functions/generate-pdf/index.ts:168 | a Word file "base.docx" gives "base_ABNT.pdf" |
| GeneratePdf.MarginRule | supabase/functions/generate-pdf/index.ts:46-48 | the margin rule is the CSS of the margin box; it is 3/2/2/3 cm exactly for "abnt" and 2.5 cm otherwise |
| GeneratePdf.LineHeight | supabase/functions/generate-pdf/index.ts:50 | line height 1.8 exactly for "1.5", 2.4 exactly for "2.0", and 1.4 for everything else |
| GeneratePdf.LineHeightOnChoices | supabase/functions/generate-pdf/index.ts:50 | the three offered spacings map to 1.8, 1.4 and 2.4; any other value is treated like "1.0" |
| GeneratePdf.SettingsSummaryNamesSettings | supabase/functions/generate-pdf/index.ts:133-135 | the introduction paragraph names the font, the size and the spacing, in that order |
| GeneratePdf.FiguresIntroDependsOnCaptions | supabase/functions/generate-pdf/index.ts:145-148 | the figures introduction differs with and without captions |
| GeneratePdf.FigureBlockFor | supabase/functions/generate-pdf/index.ts:53-63 | the block shows the figure's id; it has a caption exactly when autoCaptions is set, numbered with the id, holding the name and the source line |
| GeneratePdf.FiguresHtml | supabase/functions/generate-pdf/index.ts:52-64 | one figure block per figure, in order, showing its id and captioned exactly when autoCaptions is set |
| GeneratePdf.ParagraphText | supabase/functions/generate-pdf/index.ts:133-155 | the settings paragraph opens with the fixed lead-in and the figures paragraph with its fixed opening; the settings named in order by SettingsSummaryNamesSettings |
| GeneratePdf.FrontMatter | supabase/functions/generate-pdf/index.ts:121-129 | one block each for the optional header and page number, then the title page and the page break, and no section |
| GeneratePdf.SectionsFor | supabase/functions/generate-pdf/index.ts:131-156 | 3 sections with figures, 2 without, numbered 1, 2, ... without a gap |
| GeneratePdf.StyleFor | supabase/functions/generate-pdf/index.ts:73-83 | the style uses the font and the size verbatim, the CSS of the option's margin box, and one of the line heights 1.8, 2.4 and 1.4 |
| GeneratePdf.Compose | supabase/functions/generate-pdf/index.ts:66-160 | the title is the stripped name; the body holds the optional header and page number, the title page, the break and 2 or 3 sections, and ends with the final remarks; its contents are read back by the Compose* lemmas below |
| GeneratePdf.ComposeTitleHeaderPageNumber | supabase/functions/generate-pdf/index.ts:71-127 | the title is the stripped name and the title page shows it upper-cased; a header with the stripped name appears exactly when headerFooter is set; page "1" appears exactly when pageNumbers is set |
| GeneratePdf.ComposeSections | supabase/functions/generate-pdf/index.ts:131-156 | the document's sections are introduction, figures if any, final remarks |
| GeneratePdf.ComposeSectionNumbering | supabase/functions/generate-pdf/index.ts:131-152 | there are 3 or 2 sections numbered 1, 2, ...; the introduction comes first and the final remarks last; FIGURAS appears exactly when there are figures |
| GeneratePdf.ComposeFigureBlocks | supabase/functions/generate-pdf/index.ts:52-64 | one block per figure, in order, showing its id; a caption appears exactly when autoCaptions is set, numbered by id, with the name and the source line |
| GeneratePdf.CaptionNumberIsFigureId | supabase/functions/generate-pdf/index.ts:59 | figures with ids 7, 2, 9 are captioned 7, 2, 9: the number is the id, not the position |
| GeneratePdf.ComposeStatesSettings | supabase/functions/generate-pdf/index.ts:73-148 | the style carries the font, the size, the margin box and the mapped line height; the introduction opens with the settings paragraph; the figures section opens with the captions sentence |
| GeneratePdf.Handle | supabase/functions/generate-pdf/index.ts:38-187 | a document is produced exactly when filename, options and figures are all present, with status 200 and success; anything else fails with status 500 |
| GeneratePdf.HandleComplete | supabase/functions/generate-pdf/index.ts:164-174 | a complete request is answered with the composed document and the output filename |
| GeneratePdf.HandleIgnoresContent | supabase/functions/generate-pdf/index.ts:39 | the response does not depend on `content` |
| GeneratePdf.RelatorioExample | supabase/functions/generate-pdf/index.ts:46-168 | "relatorio.docx" with ABNT options and one figure gives "relatorio_ABNT.pdf", the ABNT margins, line height 1.8 and the caption "Figura 1 - Diagrama" |
| DocumentPreviewModal.PreviewLineHeightAgrees | src/components/DocumentPreviewModal.tsx:84 | the dialog's line height equals the server's for every spacing value |
| DocumentPreviewModal.SimulatedPage | src/components/DocumentPreviewModal.tsx:53-115 | the imitation draws one block per figure, in order, showing its id, captioned exactly when autoCaptions is set |
| DocumentPreviewModal.Render | src/components/DocumentPreviewModal.tsx:20-124 | nothing while closed; non-empty HTML is shown unchanged, with the fixed padding and the options' font family and size; otherwise the page is exactly the imitation `SimulatedPage`, so the agreement lemmas below apply to what the dialog draws; the margins label is "ABNT" exactly for "abnt", else "Normal"; the footer shows the settings |
| DocumentPreviewModal.PreviewLineHeight | src/components/DocumentPreviewModal.tsx:84 | line height 1.8 exactly for "1.5", 2.4 exactly for "2.0", and 1.4 otherwise; equal to the server's mapping by PreviewLineHeightAgrees |
| DocumentPreviewModal.PreviewHeadings | src/components/DocumentPreviewModal.tsx:79-94 | headings numbered 1, 2, ...: the introduction first, and the figures heading exactly when there are figures; matched to the server's sections by SimulatedHeadingsAgree |
| DocumentPreviewModal.SimulatedTitleAgrees | src/components/DocumentPreviewModal.tsx:61-73 | the imitation's title and subtitle are the server's title page |
| DocumentPreviewModal.SimulatedSummaryAgrees | src/components/DocumentPreviewModal.tsx:78-90 | the imitation's first paragraph and its line height are the server's |
| DocumentPreviewModal.SimulatedHeadingsAgree | src/components/DocumentPreviewModal.tsx:79-94 | the imitation's headings are the server's numbered sections without the final remarks |
| DocumentPreviewModal.SimulatedFiguresAgree | src/components/DocumentPreviewModal.tsx:92-111 | the imitation's figure blocks equal the server's, captions included |
| DocumentPreviewModal.InjectedPaddingIgnoresMargins | src/components/DocumentPreviewModal.tsx:40-50 | the injected page's padding matches the document's margin rule exactly when margins is "abnt" |
| DocumentPreview.Render | src/components/DocumentPreview.tsx:30-93 | a header with the stripped name exactly when headerFooter is set; page "1" exactly when pageNumbers is set; a figure card exactly when there are figures, captioned exactly when autoCaptions is set, always number 1 with the first name or the placeholder; the settings shown verbatim |
| DocumentPreview.HeaderAndPageNumberAgree | src/components/DocumentPreview.tsx:30-82 | the card's header and page number are those of the server's document |
| DocumentPreview.CardCaptionMatchesServerIffFirstIdIsOne | src/components/DocumentPreview.tsx:62 | with a non-empty first name, the card's caption matches the server's first caption exactly when the first id is 1 |
| DocumentPreview.EmptyNameDiffersFromServer | src/components/DocumentPreview.tsx:62 | with an empty first name, the card shows the placeholder while the server's caption text is empty |

## Left out

- HTTP plumbing in `generate-pdf` is not modelled: the CORS preflight, the headers, JSON parsing and serialisation, and logging. A body that is not valid JSON, or is null, is the `MalformedBody` failure. A JSON array, number or string gets through the destructuring and fails when `options` is first read, which is `OptionsMissing`. A missing field is modelled by the first property access that would throw.
- The error message text of a failed request is not modelled. The model keeps which field was missing. The source answers with the exception's message, which depends on the JavaScript runtime.
- An options object with a missing or wrongly typed field is not modelled; for example, an options object without `fontFamily` makes the source print "undefined". The options record here always has all seven fields with their declared types.
- The literal HTML, the CSS rules other than margins, font and line height, and the whitespace of the template are not modelled. Paragraph wording is kept with its line breaks folded into single spaces.
- HTML escaping is not modelled. The source interpolates names unescaped, and the model keeps them as plain strings.
- GeneratePdf.ToUpperCase: maps only the ASCII letters a–z. JavaScript's `toUpperCase` also maps accented and other Unicode letters.
- Figure ids are integers here. In the source they are JavaScript numbers, which could be fractional.
- The page's timers and `await` are not modelled. IndexPage.Page.HandleConvert runs the five steps with no interleaving. Another handler running during the 1.2 s waits (removing the file mid-conversion, say) is not modelled.
- Toast notifications and the download button's action are not modelled; they only show a message.
- The file upload component (its file-type filter and drag-and-drop) and the PDF service module are not part of this model. A selected file is a name.
- Figure detection is not modelled; as in the source, every selected file gets the fixed mock list.
- Styling, icons and animation of every component are not modelled. Only which text each component shows, and when, is modelled.
- FiguresList.CaptionEditor: is independent of IndexPage.Page. In the source the figure panel is mounted only while a file is selected, so removing the file discards its edit session. The model's editor keeps `editingId` and `editValue` across a file removal.
- The dialog's close button is not modelled; it calls a callback the dialog does not own.
