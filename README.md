# Partes de trabajo — a Dafny model

The application records work orders ("partes de trabajo") for an installation company: a
worker fills in a form (site, hours, counts of installed items, pictures, a signature),
the work order receives a yearly number such as `00042/24`, and it can be listed, edited,
deleted and exported to PDF and to spreadsheets. This project models the logic of that
front end, and the store's answers are inputs to it:

- **The number allocator** (`ParteUtils`). `generateParteNumber` parses the latest number
  of the year, increments it, pads it to five digits and appends `/YY`. `formatParteNumber`
  is modelled too.
- **The PDF export** (`TextWrap`, `ExportPdf`). `generatePDF` is a class `Pdf` whose
  methods append drawing operations to a log, one method per step of the source. Each
  method is proved against a function giving the whole log (`PdfOps`). The log is then used
  to prove:
  - the page count;
  - where each picture goes;
  - the cursor of the additional information;
  - where the signature goes;
  - that failed pictures stop nothing.

  `formatLongText` is a loop proved equal to a greedy line breaker, and that breaker is
  characterised by lemmas.

  `PdfOps`, `GeneratePdf` and the lemmas about the whole document use the corrected
  wrapper, which gives no lines for an empty value. As written, `generatePDF` throws
  before producing any document for every work order whose hours, state or cost is
  empty (see "## Findings"). That behaviour is modelled separately by
  `ExportPdf.InfoRowsAsWritten` and `ExportPdf.AsWrittenExport`.
- **The spreadsheet exports** (`ExportExcel`): the row projections of `exportToExcel` and
  `exportAllToExcel`.
- **The two form pages** (`WorkOrderForm`, `NuevoParte`, `EditarParte`). Each page is a
  class holding the form record, the worker's rates, a loading flag and the store calls
  made, with one method per handler. The pure updaters the handlers apply are shared.
- **The list page** (`Dashboard`): loading the list, deleting by id, and the fallbacks of
  the titles and of the total.

`Js` models the JavaScript behaviour the code relies on:
- truthiness, `||` and `String()`;
- `parseInt`, `parseFloat`, `padStart`, `split`/`join` and `toFixed(2)`.

Values are `Null | Str | Number | List`, and a record is a map from field names to values.

Two behaviours of the code are worth stating:
- A picture that fails to load still gets its border drawn: src/services/exportService.js:234
  draws the frame whether or not the picture of line 230 loaded.
- The allocator reads the latest-created number of the year, not the largest:
  src/utils/parteUtils.js:9 orders the query by `created_at`. The lemma
  `ParteUtils.LatestNotLargest` exhibits a table where it hands out `00003/24` while
  `00005/24` exists.

## Model

| member | source | states |
|---|---|---|
| ParteUtils.GenerateParteNumber | src/utils/parteUtils.js:1-26 | a query error is rethrown as a failure; any number produced ends with `/` and the year suffix |
| ParteUtils.FirstNumberOfYear | src/utils/parteUtils.js:17-25 | no row, null data or an empty latest number gives `00001/YY` |
| ParteUtils.NextAfterLatest | src/utils/parteUtils.js:18-25 | a latest number whose part before `/` is the digit run of n gives the number n + 1 |
| ParteUtils.NumberRoundTrip | src/utils/parteUtils.js:24-25 | the number part is the decimal of n left-padded with '0' to five characters and never truncated; splitting at `/` gives it back, and it parses to n |
| ParteUtils.ReallocationIncrements | src/utils/parteUtils.js:17-25 | feeding an allocated number back as the latest one allocates the next: successive numbers count 1, 2, 3, … |
| ParteUtils.YearSuffixDigits | src/utils/parteUtils.js:2 | for a year of two or more digits the suffix is its last two digits |
| ParteUtils.IdentifierShape | src/utils/parteUtils.js:24-25 | numbers below 100000 give identifiers of five digits, `/` and two digits |
| ParteUtils.NonNumericLatest | src/utils/parteUtils.js:19-25 | a latest number starting with neither a sign, white space nor a digit yields `00NaN/YY` |
| ParteUtils.LatestNotLargest | src/utils/parteUtils.js:5-10 | the result follows the latest-created number of the year, so it can fall below a number that exists |
| ParteUtils.AllocatedShownUnchanged | src/utils/parteUtils.js:1-31 | every number the allocator hands out is shown unchanged by `formatParteNumber`, and formatting twice is formatting once |
| Js.SplitJoin | src/utils/parteUtils.js:19 | splitting at a character and joining again with it gives the string back |
| Js.PadStart | src/utils/parteUtils.js:24 | the result has the larger of the two lengths, ends with the input and is filled in front with the pad character |
| Js.ParseIntOfRun | src/utils/parteUtils.js:19 | a digit run followed by a non-digit parses to the value of the run |
| Js.FixedNonNegative | src/pages/NuevoParte.jsx:98-99 | `toFixed(2)` of a non-negative number: the whole part without leading zeros, a point and two digits, together denoting the number rounded to hundredths |
| Js.DatePart | src/pages/NuevoParte.jsx:18 | the day part is a prefix of the timestamp without a 'T', and a timestamp without a 'T' is kept whole |
| Js.DatePartOf | src/pages/EditarParte.jsx:53 | the day part of `day + "T" + time` is `day` |
| TextWrap.FormatLongText | src/services/exportService.js:147-164 | the loop returns exactly the lines of the greedy breaker `Wrap`; for a falsy value it returns no lines, the corrected behaviour (the source returns '', see `TextWrap.FormatLongTextAsWritten`) |
| TextWrap.WrapJoinsBack | src/services/exportService.js:149-163 | joining the lines with spaces gives back `String(text)`; there are between one line and one line per word |
| TextWrap.WrapIsGreedy | src/services/exportService.js:153-160 | every line holds one word or measures strictly less than the maximum width, and each break falls where adding the next word would reach it |
| TextWrap.GreedyKeepsWords | src/services/exportService.js:149-162 | the lines hold all the words, in order, none lost or repeated |
| TextWrap.WrapFalsy | src/services/exportService.js:148 | a falsy value gives no line (the corrected behaviour) |
| TextWrap.FormatLongTextAsWritten | src/services/exportService.js:147-164 | as written, the result is the string '' exactly when the value is falsy, and otherwise an array of at least one line |
| ExportPdf.AddImageToPdf | src/services/exportService.js:6-25 | a picture that loads is added; a load failure or an add failure adds nothing and does not stop the export |
| ExportPdf.DrawInfoGrid | src/services/exportService.js:69-92 | the nested loop draws the 2×4 grid row by row, with labels at 15 and 105 and values 25 further right |
| ExportPdf.DrawAdditionalInfo | src/services/exportService.js:173-194 | the cursor loop draws each label, then its wrapped lines 10 apart, and moves down `max(15, 10·lines + 5)`; values are wrapped by the corrected `Wrap`, so an empty value draws its label only where the source throws (`ExportPdf.InfoRowsAsWritten`) |
| ExportPdf.DrawInfoRow | src/services/exportService.js:175-191 | one row draws its label at the left margin, then its lines at x = 85, 10 apart |
| ExportPdf.DrawSlot | src/services/exportService.js:217-234 | picture i draws a continuation page when i is a positive multiple of four, then the picture when it loads, then its frame |
| ExportPdf.DrawTop | src/services/exportService.js:36-144 | the header, the grid, the details table and the two panels are drawn in the source's order |
| ExportPdf.DrawFirstPage | src/services/exportService.js:36-194 | everything before the gallery is drawn: the top of the page, then the additional information from the table's end + 72, wrapped by the corrected `Wrap` (the source's behaviour: `ExportPdf.AsWrittenExport`) |
| ExportPdf.DrawSlots | src/services/exportService.js:216-235 | the picture loop draws, in index order, a continuation page before every fourth picture, then the picture and its frame |
| ExportPdf.DrawGallery | src/services/exportService.js:196-236 | no pictures, no gallery; otherwise a new page with its banner and then the pictures |
| ExportPdf.DrawSignature | src/services/exportService.js:238-246 | with a signature, its caption at page height − 50 and its picture at (15, page height − 40), 50×30 |
| ExportPdf.GeneratePdf | src/services/exportService.js:27-249 | a fresh document whose log is exactly `PdfOps` of the work order, built on the corrected `Wrap`; as written the source produces no document when hours, state or cost is empty (`ExportPdf.AsWrittenExport`) |
| ExportPdf.PageCount | src/services/exportService.js:197-223 | the corrected document has one page plus one per started group of four pictures |
| ExportPdf.GalleryBreaks | src/services/exportService.js:197-223 | the gallery adds ⌈n/4⌉ page breaks for n pictures, none for none |
| ExportPdf.PictureOnPage | src/services/exportService.js:216-234 | picture i is framed at its slot on page 2 + i div 4, whether or not it loads |
| ExportPdf.SlotGeometry | src/services/exportService.js:210-228 | every slot lies within the page margins; two pictures on the same page do not overlap; picture i + 4 takes the place of picture i |
| ExportPdf.SlotPlace | src/services/exportService.js:225-228 | picture i goes at x = 15 or 115 by column and y = 30 or 105 by row |
| ExportPdf.LoadsOnlyAddPictures | src/services/exportService.js:6-25 | whichever pictures fail to load, everything else in the corrected document is drawn the same |
| ExportPdf.SignatureOnLastPage | src/services/exportService.js:238-246 | in the corrected document the signature follows everything else, and no page break comes after the gallery |
| ExportPdf.InfoRowsBand | src/services/exportService.js:187-193 | the rows go only downwards, start at the cursor, end 15 above where it stops, and take at least 15 each |
| ExportPdf.InfoRowsSnoc | src/services/exportService.js:173-193 | a row with no value lines adds only its label, at the height where the rows before it leave the cursor |
| ExportPdf.EmptyLastRow | src/services/exportService.js:187-193 | rows ending with a value of no lines end with that row's bare label |
| ExportPdf.AdditionalInfoBand | src/services/exportService.js:126-173 | the additional information starts at the table's end + 72 and takes at least 45 |
| ExportPdf.InfoRowsAsWritten | src/services/exportService.js:187-189 | as written, the rows stop with a TypeError at the first value for which the wrapper returned '' |
| ExportPdf.InfoRowsAsWrittenStops | src/services/exportService.js:187-189 | the as-written drawing fails exactly when some wrapper call returned '' |
| ExportPdf.AsWrittenExport | src/services/exportService.js:166-189 | as written, the export fails exactly when the hours, state or cost is empty, and otherwise draws the rows of the corrected model |
| ExportPdf.MissingCostAborts | src/services/exportService.js:170 | a pending work order without a cost makes the source throw, while the corrected model ends with the bare "Coste:" caption |
| ExportExcel.CellDefaults | src/services/exportService.js:253-289 | in both exports a falsy `num_velas`, `num_puntos_pvc` or `num_montaje_aparatos` becomes 0 and every other falsy field ''; the one-work-order export shows truthy fields as they are |
| ExportExcel.ExportToExcel | src/services/exportService.js:251-270 | one row, on the sheet "Parte de Trabajo", saved as `parte_<id>.xlsx`; the row holds the eleven columns in order, each the record's field or, when falsy, the column's default |
| ExportExcel.ExportAllToExcel | src/services/exportService.js:272-322 | one row per work order in list order, on the sheet "Partes de Trabajo", with the fifteen widths |
| ExportExcel.NoUndefinedCells | src/services/exportService.js:253-289 | no cell of either export is null or undefined |
| ExportExcel.ColumnLayout | src/services/exportService.js:252-313 | the single row has 11 cells; every full row has 15, as many as there are widths |
| ExportExcel.AllFileName | src/services/exportService.js:320-321 | the full export is named after the day of the current timestamp |
| WorkOrderForm.SetField | src/pages/NuevoParte.jsx:39-42 | the field holds the input's text and no other field changes |
| WorkOrderForm.HoursOfWhole | src/pages/NuevoParte.jsx:95 | the digits of n, followed by anything but a digit or a point ("2 horas"), count as n hours |
| WorkOrderForm.HoursOfDecimal | src/pages/NuevoParte.jsx:95 | `a.d` followed by anything but a digit counts as a + d / 10^|d| hours |
| WorkOrderForm.HoursSkipSpace | src/pages/NuevoParte.jsx:95 | leading white space is skipped |
| WorkOrderForm.HoursNegated | src/pages/NuevoParte.jsx:95 | a leading minus negates the hours |
| WorkOrderForm.HoursNotANumber | src/pages/NuevoParte.jsx:95 | a text starting with no digit, sign, point or white space counts as 0 hours |
| WorkOrderForm.Recost | src/pages/NuevoParte.jsx:96-100 | both costs become `(hours × rate).toFixed(2)`, and nothing else changes |
| WorkOrderForm.ClearWorker | src/pages/NuevoParte.jsx:77-82 | the name and both costs become '', and nothing else changes |
| WorkOrderForm.ChangeFrame | src/pages/NuevoParte.jsx:37-102 | the input's field ends up holding its text, and only it, the name and the costs can change |
| WorkOrderForm.PlainChange | src/pages/EditarParte.jsx:85-90 | any input other than the worker code and the hours sets exactly its field |
| WorkOrderForm.HoursChange | src/pages/EditarParte.jsx:141-149 | new hours recompute both costs, unparsable hours counting 0, exactly when the worker's rate is positive; the rates do not change |
| WorkOrderForm.LookupFailedKeeps | src/pages/EditarParte.jsx:101-104 | a failed lookup changes nothing beyond the code itself |
| WorkOrderForm.NoEmployeeClears | src/pages/EditarParte.jsx:124-135 | no worker empties the name and both costs and zeroes the rates, so later hours recompute nothing |
| WorkOrderForm.EmployeeFound | src/pages/NuevoParte.jsx:58-75 | a worker found gives its name and rates, and the costs are recomputed from the hours only if some are typed |
| WorkOrderForm.AppendImage | src/pages/NuevoParte.jsx:104-109 | the URL goes after the earlier images, and nothing else changes |
| WorkOrderForm.RemoveImage | src/pages/EditarParte.jsx:159-164 | only the images change, to the list without index k |
| WorkOrderForm.WithoutIndexSpec | src/pages/EditarParte.jsx:162 | an index in range removes exactly that image, keeping the rest in order; any other index removes nothing |
| WorkOrderForm.RemoveUndoesAppend | src/pages/EditarParte.jsx:152-164 | uploading and then removing the new last image gives the images back |
| WorkOrderForm.SetSignature | src/pages/EditarParte.jsx:166-170 | only the signature changes |
| NuevoParte.NewParteForm.constructor | src/pages/NuevoParte.jsx:12-35 | the page starts with the initial form dated with the day of the current timestamp, zero rates, not loading |
| NuevoParte.InitialFormFacts | src/pages/NuevoParte.jsx:12-30 | the initial form is pending, with zero counts, empty costs, no images, no signature and the day of the timestamp |
| NuevoParte.NewParteForm.HandleChange | src/pages/NuevoParte.jsx:37-102 | the page state becomes the change of the form and rates held before the input |
| NuevoParte.NewParteForm.HandleImageUpload | src/pages/NuevoParte.jsx:104-109 | the URL is appended; the rates, the flag and the calls are unchanged |
| NuevoParte.NewParteForm.HandleSignatureSave | src/pages/NuevoParte.jsx:111-117 | the signature is set; the rest is unchanged |
| NuevoParte.NewParteForm.HandleSubmit | src/pages/NuevoParte.jsx:119-153 | the calls made are those of the submit effect, the form is kept, and loading ends false |
| NuevoParte.NewRecord | src/pages/NuevoParte.jsx:135-140 | the inserted record carries the allocated number and the state "Pendiente", and every other field is as in the form |
| NuevoParte.NoSignatureNoCalls | src/pages/NuevoParte.jsx:123-127 | without a signature neither the allocator's query nor the insert happens |
| NuevoParte.SignedFormInserted | src/pages/NuevoParte.jsx:129-146 | a signed form is inserted once, with a number ending in the year suffix; it is created exactly when the insert succeeds |
| NuevoParte.AllocationFailureNoInsert | src/pages/NuevoParte.jsx:129-149 | when no number can be allocated nothing is inserted |
| EditarParte.EditParteForm.constructor | src/pages/EditarParte.jsx:9-35 | the page starts with the blank form, zero rates, not loading, for the route's id |
| EditarParte.EditParteForm.Load | src/pages/EditarParte.jsx:38-61 | a loaded row, normalised, replaces the form; a failed load or a date that is not a string leaves it |
| EditarParte.NormalizeFields | src/pages/EditarParte.jsx:50-55 | the date is cut at its 'T', missing images become [], and every other field is copied unchanged |
| EditarParte.NormalizeDate | src/pages/EditarParte.jsx:53 | a date without a time is kept; a date that is not a string makes the load fail |
| EditarParte.NormalizeImages | src/pages/EditarParte.jsx:54 | the loaded form always holds its images as an array |
| EditarParte.EditParteForm.HandleChange | src/pages/EditarParte.jsx:85-150 | the page state becomes the change of the form and rates held before the input |
| EditarParte.EditParteForm.HandleImageUpload | src/pages/EditarParte.jsx:152-157 | the URL is appended; the rest is unchanged |
| EditarParte.EditParteForm.HandleRemoveImage | src/pages/EditarParte.jsx:159-164 | the image at the index, if any, is removed; the rest is unchanged |
| EditarParte.EditParteForm.HandleSignatureSave | src/pages/EditarParte.jsx:166-172 | the signature is set; the rest is unchanged |
| EditarParte.EditParteForm.HandleSubmit | src/pages/EditarParte.jsx:174-200 | the calls made are those of the submit effect, the form is kept, and loading ends false |
| EditarParte.SubmitSends | src/pages/EditarParte.jsx:178-188 | without a signature nothing is sent; with one the whole form is sent once as the update of this id; it succeeds exactly when the update does |
| Dashboard.DashboardState.constructor | src/pages/Dashboard.jsx:8-9 | the page starts with no work orders, loading |
| Dashboard.DashboardState.FetchPartes | src/pages/Dashboard.jsx:35-51 | the rows replace the list, no data meaning an empty list; an error keeps it; loading ends in every case |
| Dashboard.DashboardState.HandleDelete | src/pages/Dashboard.jsx:16-33 | nothing happens unless confirmed; a failed delete keeps the list; a successful one filters out the id |
| Dashboard.WithoutIdCounts | src/pages/Dashboard.jsx:26 | after a deletion each work order with another id is listed as many times as before, and none with that id |
| Dashboard.WithoutIdMembers | src/pages/Dashboard.jsx:26 | after a deletion the list holds exactly the work orders it held whose id differs |
| Dashboard.WithoutIdOrder | src/pages/Dashboard.jsx:26 | the remaining work orders keep their order |
| Dashboard.WithoutAbsentId | src/pages/Dashboard.jsx:26 | deleting an id no work order has leaves the list as it was |
| Dashboard.WithoutIdTwice | src/pages/Dashboard.jsx:26 | deleting the same id twice is deleting it once |
| Dashboard.TitlesAgree | src/pages/Dashboard.jsx:178 | with a number, the card and mobile titles show it; without one, both fall back to the id |
| Dashboard.MobileIdDigits | src/pages/Dashboard.jsx:348 | without a number, an id below 10000 shows as exactly four digits that read back as the id; a larger one is shown whole |
| Dashboard.TotalShown | src/pages/Dashboard.jsx:368 | a work order without a total prints "0,00 €" |

## Left out

- Store, mail and file I/O:
  - Every store query, insert, update and delete is left out. Their results are parameters: `LatestQuery`, `Lookup`, `FetchResult`, the loaded row, and whether an insert, update or delete fails.
  - The picture and signature uploads are left out.
  - The e-mail action of the list page, including its un-awaited PDF, is left out.
  - Writing the PDF and spreadsheet files is left out; the model keeps the document's log and the workbook's contents and name.
- Clock and locale: the current time (an ISO timestamp or a year), the browser's date printing (`Locale`, `PdfEnv.dateText`), the autoTable plugin's final height and the page height are all parameters.
- Presentation: colours, font names and sizes, the details table's styling and JSX rendering are not modelled. `splitTextToSize` for "Otros Trabajos" is kept as one `WrappedText` operation.
- The text measure is left out. `TextWrap.Width` sums per-glyph widths from a `Font` parameter; kerning and the font's real metrics are left out.
- Floating point is left out:
  - Hours, rates and costs are exact reals.
  - `toFixed(2)` rounds the exact value half up.
  - Float representation errors are not modelled.
  - `parseFloat` reads plain decimal notation; exponents, `Infinity` and hexadecimal are left out.
- Stored numbers are integers only: `Value.Number` holds an `int`. A record field that the store returns as a fractional JSON number (hours or a total such as 2.5) is not representable; fractional hours and costs are carried as text, as the forms write them. Loading such a row, and printing it with `String(v)` in the PDF and spreadsheet exports, is not modelled.
- `parseInt` hexadecimal prefixes and precision loss above 2^53 are left out.
- Page and list positions are integers (millimetres and counts).
- The same number issued to two concurrent creations is left out. This race needs two clients interleaving between the allocator's read and the insert.
- Pictures: an `imagenes` value that is not an array gives no pictures in the PDF.
- `EditarParte.EditParteForm.Load` requires the stored `imagenes` to be an array or empty. It does not model a row holding some other value there.
- handleChange values:
  - Every input's value is modelled as text.
  - The worker lookup's answer is a parameter, not interleaved with later inputs.
- `null` and `undefined` are one value, `Null`. A template literal printing a missing id shows "null" in the model where the source would show "undefined".
- Components not modelled:
  - `src/components/SignaturePad.jsx` (canvas geometry);
  - `src/components/ImageUploader.jsx` (a storage upload under a random name);
  - `src/components/Layout.jsx` and `src/App.jsx` (routing);
  - the list of sites (`fetchObras`) the edit page loads for its selector.
- The additional-information panel keeps its fixed height of 45 whatever the rows need. The model draws the rows where the source does, which can go below the panel.

## Findings

| source | as written | input that shows it | evidently intended | confidence | as-written member | corrected member |
|---|---|---|---|---|---|---|
| src/services/exportService.js:148, 167-171, 187-189 | `formatLongText` returns the string '' for an empty value, and the caller then calls `lines.forEach` on it, which throws a TypeError and aborts the PDF export | a work order with hours "2 horas", state "Pendiente" and no `coste_trabajos` (any work order not yet costed) | an empty value yields no lines (`[]`), so the row shows only its label | not executed | ExportPdf.MissingCostAborts | TextWrap.WrapFalsy, ExportPdf.GeneratePdf |
