# Computer-lab survey report wizard: a Dafny model

The app is a browser wizard. A surveyor fills in a computer-lab survey for a school in four steps, then sees a review page:

1. general information about the school and the lab;
2. the list of surveyed machines and their faults;
3. up to four photos;
4. recommendations grouped by category.

The review page can be downloaded as an A4 PDF. The whole report is saved to browser storage after every change, can be exported to a JSON file, and can be imported back.

This project models the app's logic in Dafny and proves properties of it:

- **PdfLayout** covers the page-layout cursor of the PDF export. Every block of the review page arrives with its measured height. The export is a sequence of steps over the cursor `y`, the page counter, the blocks placed so far and the footers stamped so far. The module states these steps as functions and proves:
  - what the whole document looks like: one footer per page, no block split or overlapped, pages in document order, the table header leading every page of rows, the signature on a page of its own;
  - that every block is drawn exactly once, in document order.
- **PdfExport** is the export procedure as written: a `PdfWriter` object with a page counter, whose methods add footers, pages, blocks, table headers and rows. Each method is proved to perform the matching `PdfLayout` step. `DownloadPdf` is proved to build exactly the document `PdfLayout.Export` describes.
- **Configurations** covers the machine list: field updates, notes, blank machines, duplication, deletion and the faulty/working summary.
- **Recommendations** covers adding, removing and grouping recommendations by category. The grouping reducer is a loop proved against a reference definition.
- **Wizard** covers step navigation, the four-photo cap, general-information edits with school auto-fill, and PDF option edits.
- **Snapshot** covers the saved-state shape and the validity check shared by start-up and import, with JavaScript truthiness spelled out.
- **Seed** covers the starting data: eighteen machines, two recommendations and the four categories with their labels.
- **Text** holds stand-ins for the JavaScript built-ins the app relies on: `join`, page-number rendering, `trim` and de-duplication through a `Set`.
- **ReportTypes** holds the entities of `types.ts`.

Model choices:

- Fresh ids (`Date.now()`) are parameters.
- The user's answer to the overwrite question is a parameter.
- A stored or uploaded text is given as the outcome of parsing it.
- Block heights are non-negative reals.

## Where the code does something unexpected

The model follows the code in each case below.

- **Orphan table header.** A page can end with the table header and none of its rows. The code tests the opening header on its own (`src/App.tsx:323`). If the first row then overflows, the header is left alone at the bottom of the page and repeated on the next. `PdfLayout.OrphanHeader` gives a concrete report where this happens. The model proves the weaker property the code does keep: every row sits directly under the header or another row of its own page (`PdfLayout.HeaderLeadsRows`).
- **Blank page before a tall row.** The row overflow test (`src/App.tsx:330`) has no top-margin guard, unlike `addElement`. A row taller than a page therefore starts a new page even when the current page is empty. `PdfLayout.TallRowLeavesBlankPage` shows page 1 left blank.
- **Imported step not range-checked.** Import checks only that the step is truthy (`src/App.tsx:526`). A snapshot saved on step 9 is adopted as it is (`Snapshot.OutOfRangeStepAdopted`), so the step range that `nextStep`/`prevStep` keep (`Wizard.StepsStayInRange`) holds only for states reached by clicking.
- **A negative imported step loses the report.** Step -1 is truthy, so an upload saved on it is adopted (`src/App.tsx:526`). One click on Next gives `Math.min(0, 5) = 0` (`src/App.tsx:500`). Once that state is saved, the next start-up finds a falsy step, rejects the snapshot and starts a fresh report (`src/App.tsx:54-58`). `Snapshot.NegativeStepLosesReport` proves this chain. So a valid state does not always stay valid: uploads keep validity (`Snapshot.ImportKeepsValid`), but clicking can break it.

## Model

| member | source | states |
|---|---|---|
| Text.Join | src/App.tsx:179 | an empty list joins to "", one part to itself; otherwise the first part is followed by the separator and the join of the rest |
| Text.JoinPair | src/App.tsx:262 | two parts join to the first, the separator, then the second |
| Text.NatToString | src/App.tsx:261 | a page number renders as a non-empty string of decimal digits with no leading zero |
| Text.NatToStringRoundTrip | src/App.tsx:261 | reading the rendered digits back gives the page number |
| Text.NatToStringInjective | src/App.tsx:261 | distinct page numbers render differently |
| Text.Trim | src/App.tsx:157 | `trim()` is empty exactly when the text is all ECMAScript whitespace; otherwise it starts and ends with non-whitespace |
| Text.TrimIsInfix | src/App.tsx:161 | the trimmed text is the infix of the input between a whitespace prefix and a whitespace suffix |
| Text.Dedup | src/App.tsx:178 | `[...new Set(xs)]` has no repeats, holds exactly the elements of xs, and is no longer than xs |
| Text.DedupSnoc | src/App.tsx:178 | appending a seen element changes nothing; a new element goes last (insertion order) |
| Text.DedupHead | src/App.tsx:178 | the first element always heads the de-duplicated list |
| Wizard.NextStep | src/App.tsx:500 | next moves one step forward and never past step STEPS.length + 1 = 5 |
| Wizard.PrevStep | src/App.tsx:501 | back moves one step back and never below step 1 |
| Wizard.StepsStayInRange | src/App.tsx:500-501 | from a step in 1..5, any sequence of next/back clicks stays in 1..5 |
| Wizard.NextReachesReview | src/App.tsx:500 | enough next clicks from any valid step end on the review step 5 |
| Wizard.StepsUndo | src/App.tsx:500-501 | back undoes next on steps 1-4, and next undoes back on steps 2-5 |
| Wizard.CapImages | src/App.tsx:152-154 | the photo list keeps at most the first four uploads, in order, and all of them when there are fewer |
| Wizard.UploadKeepsExisting | src/App.tsx:152-154 | uploading after the current photos keeps them in front, and a full gallery is unchanged |
| Wizard.WithInfo | src/App.tsx:132 | the edited field takes the value and every other field keeps its value |
| Wizard.FindSchool | src/App.tsx:134 | `find` returns the first school with exactly that name, or nothing when no school has it |
| Wizard.ChangeGeneralInfo | src/App.tsx:131-146 | the field is set; picking a known school's name also fills its address, contact person and phone; all other fields are kept |
| Wizard.ChangePdfOptions | src/App.tsx:148-150 | one option is set and the other is kept |
| Configurations.WithField | src/App.tsx:192 | the edited column takes the value; the other columns, the id and the notes are kept |
| Configurations.UpdateConfiguration | src/App.tsx:190-194 | every machine with the id has the field set and nothing else changed; other machines, the length and the order are unchanged |
| Configurations.UpdateKeepsStats | src/App.tsx:190-194 | a field edit never changes the summary |
| Configurations.AddNote | src/App.tsx:218-222 | every machine with the id gains the note at the end of its notes; nothing else changes |
| Configurations.WithoutIndex | src/App.tsx:226 | the note at the index is dropped when the index is in range; otherwise the notes are unchanged |
| Configurations.RemoveNote | src/App.tsx:224-228 | every machine with the id loses the note at the index; nothing else changes |
| Configurations.RemoveNoteUndoesAddNote | src/App.tsx:218-228 | with unique ids, removing the note just added restores the list |
| Configurations.BlankConfiguration | src/App.tsx:208-210 | the new machine has the fresh id and no fault notes |
| Configurations.AddBlankConfiguration | src/App.tsx:207-212 | the list keeps its machines and gains the blank machine at the end |
| Configurations.FaultyAppend | src/App.tsx:174 | a machine appended to the list joins the faulty ones at the end exactly when it has notes |
| Configurations.FaultyCountByPosition | src/App.tsx:174-175 | the filtered list's length is the number of positions holding a machine with notes |
| Configurations.AddBlankStats | src/App.tsx:207-212 | adding a blank machine adds one machine and one working machine, and no fault label |
| Configurations.DeleteConfiguration | src/App.tsx:214-216 | deleting never lengthens the list (the full meaning is DeleteConfigurationSpec) |
| Configurations.DeleteConfigurationSpec | src/App.tsx:214-216 | no machine with the id remains; every other machine is kept and nothing new appears; with no such machine the list is unchanged |
| Configurations.DeleteAppend | src/App.tsx:215 | deleting from two lists joined is deleting from each |
| Configurations.DeleteUndoesAddBlank | src/App.tsx:207-216 | deleting a just-added blank machine with a new id restores the list |
| Configurations.FindIndex | src/App.tsx:200 | `findIndex` is -1 exactly when no machine has the id; otherwise it is the first position holding the id |
| Configurations.Duplicated | src/App.tsx:196-205 | the copy, under the fresh id, goes right after the first machine with the id and everything else stays in place; the list is unchanged when the id is absent |
| Configurations.DuplicateConfiguration | src/App.tsx:196-205 | the search-and-splice procedure returns exactly `Duplicated` |
| Configurations.DeleteUndoesDuplicate | src/App.tsx:196-216 | deleting the copy just made (a new id) restores the list |
| Configurations.FaultyConfigs | src/App.tsx:174 | the faulty machines are exactly the machines with notes |
| Configurations.FaultyNotesAreAllNotes | src/App.tsx:177 | the notes of the faulty machines are the notes of all machines |
| Configurations.NoFaultyIffNoNotes | src/App.tsx:174-175 | no machine is faulty exactly when no machine has notes |
| Configurations.Stats | src/App.tsx:172-181 | total is the list length; working + faulty = total; faulty is the number of positions holding a machine with notes, and is 0 exactly when none has notes; the labels are the distinct notes in first-seen order joined by ", " |
| Configurations.SameNotesSameStats | src/App.tsx:172-181 | the summary depends only on the notes, position by position |
| Configurations.AddNoteFaultyCount | src/App.tsx:218-222 | adding a note makes exactly the healthy machines with the id faulty; the total is unchanged |
| Recommendations.AddRecommendation | src/App.tsx:156-166 | a blank draft changes nothing; otherwise the trimmed text is appended under the fresh id with the chosen category, and the form resets to empty text and Maintenance |
| Recommendations.RemoveRecommendation | src/App.tsx:168-170 | removal never lengthens the list (the full meaning is RemoveRecommendationSpec) |
| Recommendations.RemoveRecommendationSpec | src/App.tsx:168-170 | no recommendation with the id remains; every other one is kept and nothing new appears; with no such id the list is unchanged |
| Recommendations.RemoveAppend | src/App.tsx:169 | removing from two lists joined is removing from each |
| Recommendations.RemoveUndoesAdd | src/App.tsx:156-170 | removing a recommendation just added under a new id restores the list |
| Recommendations.CategoriesOf | src/App.tsx:185 | lists each recommendation's category, position by position |
| Recommendations.OfCategory | src/App.tsx:185 | a category's list holds exactly the recommendations of that category |
| Recommendations.GroupIndex | src/App.tsx:185 | the lookup `acc[rec.category]` finds the group of that category, or reports that none exists |
| Recommendations.GroupRecommendations | src/App.tsx:183-188 | the reducer yields `Grouped(recs)`: one group per category in order of first appearance, each holding its recommendations in order; the groups hold as many items as there are recommendations |
| Recommendations.GroupedNext | src/App.tsx:184-187 | one reducer pass turns the grouping of a prefix into that of the next prefix, with one item more |
| Recommendations.AddToGroupsCount | src/App.tsx:185 | one push adds exactly one item across the groups |
| Recommendations.GroupedSnoc | src/App.tsx:184-187 | grouping a list extended by one recommendation is one push onto the grouping of the list |
| Recommendations.GroupedSnocNew | src/App.tsx:185 | a recommendation of a category without a group opens a new group after the others |
| Recommendations.GroupedSnocSeen | src/App.tsx:185 | a recommendation of an existing category is pushed at the end of that category's group, and the other groups are unchanged |
| Recommendations.NewCategoryOrder | src/App.tsx:185 | a new category goes last in the order of first appearance |
| Recommendations.GroupsDistinct | src/App.tsx:183-188 | no category has two groups |
| Recommendations.GroupsCover | src/App.tsx:183-188 | every recommendation is in the group of its own category |
| Recommendations.GroupsSound | src/App.tsx:183-188 | every group is non-empty and holds only recommendations of the list, of its own category |
| Seed.BaseConfig | src/constants.ts:8 | a seeded machine has the base hardware, its id and its notes |
| Seed.GenerateInitialConfigurations | src/constants.ts:4-27 | eighteen machines with the base hardware and consecutive ids from the start counter; the first seventeen have no notes and the last has exactly the screen fault |
| Seed.SeedIdsIncreasing | src/constants.ts:6-21 | the seeded ids strictly increase, so they are unique |
| Seed.SeedStats | src/constants.ts:10-24 | the seed's summary is 18 machines, 17 working, 1 faulty, labelled with the screen fault |
| Seed.InitialRecommendationsGrouped | src/constants.ts:32-35 | the two starting recommendations form a Maintenance group then an Upgrade group, one item each |
| Seed.CategoryLabel | src/constants.ts:37-42 | every category has an entry in the picker list, with a non-empty label |
| Seed.CategoryValues | src/constants.ts:37-42 | the picker's categories, in the picker's order |
| Seed.CategoriesListedOnce | src/constants.ts:37-42 | every category is listed, none twice, and the labels are distinct |
| Snapshot.Get | src/App.tsx:56 | a field read yields a value exactly when the value is an object holding the key |
| Snapshot.OrElse | src/App.tsx:68-87 | a possibly missing field, or a default: the field when it is present and truthy, otherwise the default |
| Snapshot.PdfOptionsJson | src/App.tsx:84-87 | the PDF options as a truthy JSON object with the two option fields |
| Snapshot.Save | src/App.tsx:98-112 | the saved object has exactly the six state keys, each holding its piece of state |
| Snapshot.LoadState | src/App.tsx:48-64 | start-up yields a stored snapshot exactly when one is stored, parses, and has the five required fields truthy; it is returned as parsed |
| Snapshot.InitialState | src/App.tsx:66-87 | with no accepted snapshot the report starts on step 1 with the default school details, the seed, no photos, page numbers on and no footer text; a missing or falsy stored PDF options value also falls back to that default; otherwise the five checked fields are taken as stored and the PDF options when truthy |
| Snapshot.Adopt | src/App.tsx:528-533 | an accepted upload yields a valid state with its PDF options or the defaults |
| Snapshot.Import | src/App.tsx:515-549 | the state changes only on an accepted, confirmed upload, which is adopted; a read/parse failure or `null` is a read error; any other rejected value is an invalid format |
| Snapshot.SaveLoadRoundTrip | src/App.tsx:48-112 | a saved valid state is accepted at start-up and restored unchanged |
| Snapshot.ExportImportRoundTrip | src/App.tsx:503-549 | an exported valid state imported back and confirmed is restored unchanged, with no alert |
| Snapshot.LoadAgreesWithImport | src/App.tsx:526-533 | start-up and a confirmed import read any accepted snapshot alike, missing PDF options included |
| Snapshot.InitialStateValid | src/App.tsx:66-87 | start-up always gives a valid state, whatever was stored |
| Snapshot.GeneralInfoJson | src/App.tsx:69-80 | the general information as a truthy JSON object keeping the school name |
| Snapshot.StartUpPdfOptionsDefaulted | src/App.tsx:84-87 | a stored snapshot without PDF options restores everything else and gets page numbers on and no footer text |
| Snapshot.NegativeStepLosesReport | src/App.tsx:500 | an upload on step -1 is adopted; Next then gives step 0; once saved, that state is rejected at start-up and replaced by a fresh report |
| Snapshot.ImportKeepsValid | src/App.tsx:515-549 | an import never leaves a valid state invalid |
| Snapshot.MissingImagesRejected | src/App.tsx:526 | a snapshot without the photo list is an invalid format and replaces nothing |
| Snapshot.StepZeroRejected | src/App.tsx:526 | a snapshot saved on step 0 is rejected at start-up and on import |
| Snapshot.OutOfRangeStepAdopted | src/App.tsx:532 | a confirmed import saved on step 9 puts the wizard on step 9 |
| Snapshot.MissingPdfOptionsDefaulted | src/App.tsx:533 | an upload without PDF options falls back to page numbers on and no footer text |
| PdfLayout.FooterText | src/App.tsx:252-262 | no footer when page numbers are off and the custom text is empty; otherwise the custom text when set, then "Trang n" when page numbers are on, joined by a bar with two spaces on each side |
| PdfLayout.FooterStampsExact | src/App.tsx:268-273 | with footers on, pages 1..n carry exactly one footer each, in page order; with footers off there are none |
| PdfLayout.FooterTextsDistinct | src/App.tsx:261 | with page numbers on, no two pages have the same footer |
| PdfLayout.DraftFooter | src/App.tsx:259-262 | custom text "Draft" with page numbers gives "Draft", the bar separator, then "Trang n" |
| PdfLayout.AddElement | src/App.tsx:275-287 | an absent block changes nothing; otherwise the block breaks the page exactly when y + h > 282 and y > 15, is drawn whole at y or at the top margin, and the cursor moves to its end plus 4 |
| PdfLayout.AddElementStamps | src/App.tsx:281-283 | the current page's footer is stamped exactly when the block breaks the page |
| PdfLayout.ExactFitStays | src/App.tsx:281 | a block ending exactly at the bottom margin stays on its page |
| PdfLayout.TallBlockAtTopMargin | src/App.tsx:281-285 | a block taller than a page is drawn unsplit from the top margin and overflows |
| PdfLayout.AddTableHeader | src/App.tsx:314-321 | an absent header changes nothing; otherwise a new page starts exactly when the header would pass the bottom margin and the cursor is below the top one; the header is drawn at the top margin or the cursor, the cursor moves to its end with no padding, and a footer is stamped only on a page break |
| PdfLayout.RowBreaksOnce | src/App.tsx:330-335 | a row breaks the page at most once, exactly when y + h > 282; after a break the cached header is drawn at the top margin and the row right under it; the cursor stops at the row's end |
| PdfLayout.NewPageSettled | src/App.tsx:268-273 | a new page keeps the layout invariant, with the cursor at the top of an unused page |
| PdfLayout.PlaceInv | src/App.tsx:285 | drawing a block that fits or leads its page keeps the layout invariant |
| PdfLayout.AppendShaped | src/App.tsx:285 | appending a block below the last one on the current page keeps pages sorted, blocks stacked and nothing split |
| PdfLayout.AddElementSettled | src/App.tsx:275-287 | addElement keeps the layout invariant |
| PdfLayout.AddTableHeaderInv | src/App.tsx:314-321 | addTableHeader keeps the layout invariant |
| PdfLayout.AddRowInv | src/App.tsx:330-335 | one row keeps the layout invariant |
| PdfLayout.RowsInv | src/App.tsx:325-336 | the row loop keeps the layout invariant |
| PdfLayout.AddTableSettled | src/App.tsx:300-338 | the whole table, with its trailing padding, keeps the layout invariant |
| PdfLayout.AddConfigSectionSettled | src/App.tsx:294-339 | the machine section keeps the layout invariant |
| PdfLayout.RecGroupsSettled | src/App.tsx:347-350 | the recommendation-group loop keeps the layout invariant |
| PdfLayout.AddRecsSectionSettled | src/App.tsx:344-351 | the recommendations section keeps the layout invariant |
| PdfLayout.SignaturePageEmpty | src/App.tsx:356-358 | before the signature, the cursor stands at the top margin of an unused page |
| PdfLayout.AddSignatureSettled | src/App.tsx:354-360 | the signature keeps the layout invariant |
| PdfLayout.BeforeSignatureSettled | src/App.tsx:289-351 | every block before the signature leaves the layout invariant holding |
| PdfLayout.FinalFooter | src/App.tsx:362 | the last page's footer completes the footers of pages 1..N |
| PdfLayout.ExportLayout | src/App.tsx:232-370 | in the finished PDF every page 1..N has exactly its own footer (none when footers are off); blocks lie on those pages at or below the top margin, in page order, never overlap, and a block crossing the bottom margin starts at the top of its page or right under the header there |
| PdfLayout.EarlierPages | src/App.tsx:356-358 | on an unused page every block drawn so far is on an earlier page |
| PdfLayout.SignatureStartsPage | src/App.tsx:354-360 | the signature is the last block, at the top margin of a page holding nothing else |
| PdfLayout.PlaceLed | src/App.tsx:285 | drawing a non-row block, or a row while the table is open, keeps every row led by the header or a row |
| PdfLayout.AddElementLed | src/App.tsx:275-287 | addElement keeps every row led |
| PdfLayout.AddTableHeaderLed | src/App.tsx:314-321 | drawing the header keeps every row led and opens the table |
| PdfLayout.AddRowLed | src/App.tsx:330-335 | a row, with or without a page break, is led by the header or the previous row |
| PdfLayout.RowsOpen | src/App.tsx:325-336 | the table stays open through the row loop |
| PdfLayout.RowsLedAll | src/App.tsx:325-336 | after the row loop every row is led |
| PdfLayout.AddConfigSectionLed | src/App.tsx:294-339 | the machine section keeps every row led when the table has a header |
| PdfLayout.RecGroupsLed | src/App.tsx:347-350 | the recommendation groups keep every row led |
| PdfLayout.HeaderLeadsRows | src/App.tsx:300-336 | when the table has a header, every row in the PDF sits directly under the header or a row of its own page |
| PdfLayout.PlaceDrawn | src/App.tsx:285 | drawing a block records its kind, unless it is the table header |
| PdfLayout.DrawnAppend | src/App.tsx:285 | the blocks drawn from two runs are those of each, in order |
| PdfLayout.AddElementDrawn | src/App.tsx:275-287 | addElement draws the block once when present and nothing otherwise |
| PdfLayout.AddTableHeaderDrawn | src/App.tsx:314-321 | the header adds no block besides itself |
| PdfLayout.AddRowDrawn | src/App.tsx:330-335 | a row is drawn exactly once |
| PdfLayout.RowsDrawn | src/App.tsx:325-336 | the row loop draws rows 0..n-1 in order |
| PdfLayout.AddConfigSectionDrawn | src/App.tsx:294-339 | the machine section draws its present blocks and its rows, in order |
| PdfLayout.RecGroupsDrawn | src/App.tsx:347-350 | the group loop draws groups 0..n-1 in order |
| PdfLayout.AddRecsSectionDrawn | src/App.tsx:344-351 | the recommendations section draws its title when present, then its groups |
| PdfLayout.AddSignatureDrawn | src/App.tsx:354-360 | the signature is drawn once when present |
| PdfLayout.ExportDrawsDocumentOrder | src/App.tsx:289-362 | leaving the table header aside, the PDF draws exactly the review page's present blocks, each once, in document order |
| PdfLayout.OrphanHeader | src/App.tsx:323-333 | a concrete report where page 1 ends with the table header alone and the row goes to page 2 under a repeated header |
| PdfLayout.TallRowLeavesBlankPage | src/App.tsx:330-333 | a concrete report where a 300 mm row leaves page 1 blank |
| PdfExport.PdfWriter.constructor | src/App.tsx:242-249 | a new PDF is on page 1 with nothing drawn |
| PdfExport.PdfWriter.AddPageFooter | src/App.tsx:252-266 | stamps exactly the footer `FooterStamp` specifies; the page and blocks are unchanged |
| PdfExport.PdfWriter.AddPage | src/App.tsx:268-273 | stamps the current page's footer, moves to the next page and returns the top margin |
| PdfExport.PdfWriter.AddImage | src/App.tsx:285 | appends the block on the current page at the given top |
| PdfExport.PdfWriter.AddElement | src/App.tsx:275-287 | performs exactly the `PdfLayout.AddElement` step |
| PdfExport.PdfWriter.AddTableHeader | src/App.tsx:314-321 | performs exactly the `PdfLayout.AddTableHeader` step |
| PdfExport.PdfWriter.DrawRow | src/App.tsx:326-335 | one pass of the row loop performs exactly `PdfLayout.AddRow` |
| PdfExport.PdfWriter.DrawTable | src/App.tsx:300-338 | the header, the row loop and the padding perform exactly `PdfLayout.AddTable` |
| PdfExport.PdfWriter.DrawConfigSection | src/App.tsx:294-339 | performs exactly `PdfLayout.AddConfigSection` |
| PdfExport.PdfWriter.DrawRecsSection | src/App.tsx:344-351 | the title and the group loop perform exactly `PdfLayout.AddRecsSection` |
| PdfExport.PdfWriter.DrawSignature | src/App.tsx:354-360 | performs exactly `PdfLayout.AddSignature` |
| PdfExport.DownloadPdf | src/App.tsx:232-370 | without the report element there is no PDF; otherwise the PDF built is exactly `PdfLayout.Export` of the measured report, so every PdfLayout property holds of it |

## Left out

- Rasterisation and the PDF library are left out: html2canvas, `getImageProperties`, `addImage`, `text`, `save`, fonts and colours. Their effect is modelled as appending a placement or a footer stamp.
- The floating-point height scaling (`src/App.tsx:279`, `311`, `328`) is left out. Each block's height is an input. Heights are exact reals, not IEEE doubles.
- The error path of the export (`src/App.tsx:364-366`) is left out. An exception from the rasteriser has no counterpart once heights are inputs.
- The busy flags `isGeneratingPdf` and `isGeneratingWord` are not modelled.
- The Word export (`src/App.tsx:372-498`) is not modelled. It is DOM cloning and HTML templating.
- Printing (`src/App.tsx:230`) is not modelled.
- The reset handler (`src/App.tsx:551-556`) is not modelled. It clears storage and reloads the page.
- Browser storage, `FileReader`, `JSON.parse`/`stringify`, `confirm`, `alert` and download anchors are not modelled. They become parameters instead:
  - the stored text as its parse outcome;
  - the upload as `NoFile`, `NotText` or a parsed text;
  - the user's confirmation as a boolean;
  - the alert shown as a `Notice`.
- JSON text is assumed to round-trip losslessly through `stringify` and `parse`.
- The save effect is modelled only as the object it writes (`Save`). It is not modelled as a reaction to state changes.
- `Date.now()` is not modelled. Fresh ids and the seed's start counter are parameters.
- Import's fields are not checked against their TypeScript types (the app does not check them either), so they are untyped JSON values.
- The school auto-registration effect (`src/App.tsx:114-129`) is left out. It depends on Unicode `toLowerCase`.
- The view components and `src/data/schools.ts` are left out. The list of known schools is a parameter of `ChangeGeneralInfo`.
- Configurations.RemoveNote: the note index is an integer; the fractional indices JavaScript would accept (which remove nothing) are not modelled.
- Configurations.UpdateConfiguration: the handler's type also admits a number value; the model stores strings only.
- Configurations.DeleteConfiguration: its own contract only bounds the length; what it drops and keeps is proved in `DeleteConfigurationSpec`.
- Recommendations.RemoveRecommendation: its own contract only bounds the length; what it drops and keeps is proved in `RemoveRecommendationSpec`.
- PdfLayout.HeaderLeadsRows: it does not say that every page showing the header also shows a row, because the code does not guarantee that (see `PdfLayout.OrphanHeader`).
- The seeded machines and recommendations enter start-up as their JSON arrays (parameters of `Snapshot.InitialState`); how the seed is encoded as JSON is not modelled.
