// The PDF export of one work order: the page layout drawn by `generatePDF`
// in src/services/exportService.js. A jsPDF document is modelled as the log
// of the drawing operations issued on it; colours and fonts are not part of
// the log.

module ExportPdf {
  import opened Js
  import opened TextWrap

  /** One drawing call on the document. Coordinates are millimetres on an
      A4 page (210 wide). */
  datatype Op =
    | NewPage                                            // doc.addPage()
    | FillRect(x: int, y: int, w: int, h: int)           // doc.rect(..., 'F')
    | Panel(x: int, y: int, w: int, h: int)              // doc.roundedRect(..., 'F')
    | Text(s: string, x: int, y: int, centered: bool)    // doc.text
    | WrappedText(s: string, width: int, x: int, y: int) // doc.text(doc.splitTextToSize(s, width), x, y)
    | DetailsTable(startY: int, rows: seq<(string, string)>)
    | Image(src: string, x: int, y: int, w: int, h: int) // doc.addImage
    | Frame(x: int, y: int, w: int, h: int)              // doc.rect outline

  /** How loading one picture ends: it loads and is added, the browser fails
      to load it, or jsPDF throws while adding it. */
  datatype ImageLoad = Loaded | LoadFailed | AddFailed

  /** What the export depends on besides the work order: the text the
      browser gives for `new Date(parte.fecha).toLocaleDateString()`, the
      height the autoTable plugin reaches, the page height, the font in use
      for the additional information, the outcome of loading each gallery
      picture (pictures past the end of `imageLoads` load) and that of the
      signature. */
  datatype PdfEnv = PdfEnv(
    dateText: string,
    tableFinalY: int,
    pageHeight: int,
    font: Font,
    imageLoads: seq<ImageLoad>,
    signatureLoad: ImageLoad)

  /** The outcome of loading gallery picture i. */
  function LoadOf(loads: seq<ImageLoad>, i: nat): ImageLoad {
    if i < |loads| then loads[i] else Loaded
  }

  /** The jsPDF document: the operations drawn on it so far. */
  class Pdf {
    var ops: seq<Op>

    constructor ()
      ensures ops == []
    {
      ops := [];
    }

    method Draw(op: Op)
      modifies this
      ensures ops == old(ops) + [op]
    {
      ops := ops + [op];
    }
  }

  // ---------------------------------------------------------------------
  // Counting pages and pictures in an operation log
  // ---------------------------------------------------------------------

  function PageBreaks(ops: seq<Op>): nat {
    if ops == [] then 0 else (if ops[0].NewPage? then 1 else 0) + PageBreaks(ops[1..])
  }

  /** The number of pages of a document: the first one plus one per break. */
  function Pages(ops: seq<Op>): nat {
    1 + PageBreaks(ops)
  }

  /** The operations other than pictures: what is drawn whatever the loads. */
  function Drawn(ops: seq<Op>): seq<Op> {
    if ops == [] then [] else (if ops[0].Image? then [] else [ops[0]]) + Drawn(ops[1..])
  }

  predicate NoPageBreak(ops: seq<Op>) {
    forall k :: 0 <= k < |ops| ==> !ops[k].NewPage?
  }

  lemma {:induction false} PageBreaksAppend(a: seq<Op>, b: seq<Op>)
    ensures PageBreaks(a + b) == PageBreaks(a) + PageBreaks(b)
  {
    if a != [] {
      assert (a + b)[0] == a[0];
      assert (a + b)[1..] == a[1..] + b;
      PageBreaksAppend(a[1..], b);
    } else {
      assert a + b == b;
    }
  }

  lemma {:induction false} DrawnAppend(a: seq<Op>, b: seq<Op>)
    ensures Drawn(a + b) == Drawn(a) + Drawn(b)
  {
    if a != [] {
      assert (a + b)[0] == a[0];
      assert (a + b)[1..] == a[1..] + b;
      DrawnAppend(a[1..], b);
    } else {
      assert a + b == b;
    }
  }

  lemma {:induction false} NoPageBreakCount(ops: seq<Op>)
    requires NoPageBreak(ops)
    ensures PageBreaks(ops) == 0
  {
    if ops != [] {
      NoPageBreakCount(ops[1..]);
    }
  }

  // ---------------------------------------------------------------------
  // addImageToPDF
  // ---------------------------------------------------------------------

  /** What `addImageToPDF` leaves on the document: the picture when it loads
      and is added, nothing when either step fails. */
  function ImageOps(src: string, x: int, y: int, w: int, h: int, outcome: ImageLoad): (r: seq<Op>)
    ensures |r| <= 1
  {
    if outcome == Loaded then [Image(src, x, y, w, h)] else []
  }

  /** `addImageToPDF`: both failure paths resolve instead of rejecting, so the
      export goes on. */
  method AddImageToPdf(doc: Pdf, src: string, x: int, y: int, w: int, h: int, outcome: ImageLoad)
    modifies doc
    ensures doc.ops == old(doc.ops) + ImageOps(src, x, y, w, h, outcome)
  {
    match outcome
    case Loaded => doc.Draw(Image(src, x, y, w, h));
    case LoadFailed =>
    case AddFailed =>
  }

  // ---------------------------------------------------------------------
  // Page 1: header, general information, details table, other works
  // ---------------------------------------------------------------------

  function Field(parte: Record, key: string): string {
    ToString(Or(Get(parte, key), Str("")))
  }

  function HeaderOps(parte: Record): seq<Op> {
    [ FillRect(0, 0, 210, 40),
      Text("Parte de Trabajo", 105, 20, true),
      Text("Nº " + Field(parte, "numero_parte"), 105, 35, true),
      Panel(10, 50, 190, 40),
      Text("Información General", 15, 60, false) ]
  }

  /** The 2×4 grid of labels and values of the general information panel. */
  function InfoGrid(parte: Record, date: string): seq<seq<string>> {
    [ ["Obra:", Field(parte, "nombre_obra"), "Fecha:", date],
      ["Trabajador:", Field(parte, "nombre_trabajador"), "Email:", Field(parte, "email_contacto")] ]
  }

  /** Column j starts at 15 or 105; the value columns are shifted 25 right. */
  function CellX(j: nat): int {
    (if j < 2 then 15 else 105) + (if j == 1 || j == 3 then 25 else 0)
  }

  function CellY(i: nat): int {
    70 + i * 15
  }

  /** The first n cells of row i. */
  function CellOps(row: seq<string>, i: nat, n: nat): (r: seq<Op>)
    requires n <= |row|
    ensures |r| == n
  {
    if n == 0 then [] else CellOps(row, i, n - 1) + [Text(row[n - 1], CellX(n - 1), CellY(i), false)]
  }

  /** The cells of the first m rows, row by row. */
  function GridOps(grid: seq<seq<string>>, m: nat): seq<Op>
    requires m <= |grid|
  {
    if m == 0 then [] else GridOps(grid, m - 1) + CellOps(grid[m - 1], m - 1, |grid[m - 1]|)
  }

  function DetailsRows(parte: Record): seq<(string, string)> {
    [ ("Velas", ToString(Or(Get(parte, "num_velas"), Number(0)))),
      ("Puntos PVC", ToString(Or(Get(parte, "num_puntos_pvc"), Number(0)))),
      ("Montaje Aparatos", ToString(Or(Get(parte, "num_montaje_aparatos"), Number(0)))) ]
  }

  function DetailsOps(parte: Record): seq<Op> {
    [Text("Detalles del Trabajo", 15, 100, false), DetailsTable(105, DetailsRows(parte))]
  }

  /** The "Otros Trabajos" panel below the table and the empty panel of the
      additional information under it. */
  function OtherWorksOps(parte: Record, startY: int): seq<Op> {
    [ Panel(10, startY, 190, 40),
      Text("Otros Trabajos", 15, startY + 10, false),
      WrappedText(ToString(Or(Get(parte, "otros_trabajos"), Str("-"))), 180, 15, startY + 20),
      Panel(10, startY + 50, 190, 45) ]
  }

  // ---------------------------------------------------------------------
  // Page 1: the additional information rows, placed by a moving cursor
  // ---------------------------------------------------------------------

  /** The three label/value rows; the cost gets a euro sign when present. */
  function AdditionalInfo(parte: Record): seq<(string, Value)> {
    var coste := Get(parte, "coste_trabajos");
    [ ("Tiempo Empleado:", Or(Get(parte, "tiempo_empleado"), Str(""))),
      ("Estado:", Or(Get(parte, "estado"), Str(""))),
      ("Coste:", if Truthy(coste) then Str(ToString(coste) + "€") else Str("")) ]
  }

  const InfoMaxWidth: real := 100.0

  /** How far the cursor moves past a row of n value lines:
      `Math.max(15, n * 10 + 5)`. */
  function Advance(n: nat): int {
    if n * 10 + 5 > 15 then n * 10 + 5 else 15
  }

  /** The first k value lines of a row whose label sits at height y. */
  function LineOps(lines: seq<string>, y: int, k: nat): (r: seq<Op>)
    requires k <= |lines|
    ensures |r| == k
  {
    if k == 0 then [] else LineOps(lines, y, k - 1) + [Text(lines[k - 1], 85, y + (k - 1) * 10, false)]
  }

  /** A label at the left margin and its value lines 10 apart at x = 85. */
  function RowOps(caption: string, lines: seq<string>, y: int): seq<Op> {
    [Text(caption, 15, y, false)] + LineOps(lines, y, |lines|)
  }

  /** Each label paired with its value broken into lines by
      `formatLongText(value, 100)`. */
  function WrapRows(rows: seq<(string, Value)>, font: Font): (r: seq<(string, seq<string>)>)
    ensures |r| == |rows|
  {
    seq(|rows|, k requires 0 <= k < |rows| => (rows[k].0, Wrap(rows[k].1, InfoMaxWidth, font)))
  }

  /** The rows drawn from cursor position y on: each row, then the cursor
      moves down past it. */
  function InfoRowsOps(rows: seq<(string, seq<string>)>, y: int): seq<Op>
    decreases |rows|
  {
    if rows == [] then []
    else RowOps(rows[0].0, rows[0].1, y) + InfoRowsOps(rows[1..], y + Advance(|rows[0].1|))
  }

  // ---------------------------------------------------------------------
  // The picture gallery: four pictures per page on a 2×2 grid
  // ---------------------------------------------------------------------

  const ImagesPerPage: nat := 4
  const ImageWidth: int := 85
  const ImageHeight: int := 60
  const ImageMargin: int := 15
  const StartImageY: int := 30

  const GalleryTitle: string := "Imágenes del Trabajo"
  const ContinuationTitle: string := "Imágenes del Trabajo (continuación)"

  function SlotX(i: nat): int {
    ImageMargin + (i % 2) * (ImageWidth + ImageMargin)
  }

  function SlotY(i: nat): int {
    StartImageY + ((i % ImagesPerPage) / 2) * (ImageHeight + ImageMargin)
  }

  /** A new page with the coloured banner and its title. */
  function BannerOps(title: string): seq<Op> {
    [NewPage, FillRect(0, 0, 210, 20), Text(title, 105, 15, true)]
  }

  /** Picture i: a continuation page before every fourth one, then the
      picture (when it loads) and its frame (always). */
  function SlotOps(i: nat, src: string, outcome: ImageLoad): seq<Op> {
    (if i > 0 && i % ImagesPerPage == 0 then BannerOps(ContinuationTitle) else [])
    + ImageOps(src, SlotX(i), SlotY(i), ImageWidth, ImageHeight, outcome)
    + [Frame(SlotX(i), SlotY(i), ImageWidth, ImageHeight)]
  }

  function SlotsUpTo(images: seq<string>, k: nat, loads: seq<ImageLoad>): seq<Op>
    requires k <= |images|
  {
    if k == 0 then [] else SlotsUpTo(images, k - 1, loads) + SlotOps(k - 1, images[k - 1], LoadOf(loads, k - 1))
  }

  function GalleryOps(images: seq<string>, loads: seq<ImageLoad>): seq<Op> {
    if |images| == 0 then [] else BannerOps(GalleryTitle) + SlotsUpTo(images, |images|, loads)
  }

  /** The pictures of a work order: the entries of its list of picture
      addresses; any other value has none. */
  function ImageList(v: Value): seq<string> {
    if v.List? then v.items else []
  }

  // ---------------------------------------------------------------------
  // The signature and the whole document
  // ---------------------------------------------------------------------

  function SignatureOps(firma: Value, pageHeight: int, outcome: ImageLoad): seq<Op> {
    if Truthy(firma) then
      [Text("Firma del Trabajador", 15, pageHeight - 40 - 10, false)]
      + ImageOps(ToString(firma), 15, pageHeight - 40, 50, 30, outcome)
    else []
  }

  function InfoY(env: PdfEnv): int {
    env.tableFinalY + 10 + 50
  }

  /** The first page down to the additional information panel. */
  function TopOps(parte: Record, env: PdfEnv): seq<Op> {
    HeaderOps(parte)
    + GridOps(InfoGrid(parte, env.dateText), 2)
    + DetailsOps(parte)
    + OtherWorksOps(parte, env.tableFinalY + 10)
  }

  /** The first page: everything drawn before the gallery. */
  function FirstPageOps(parte: Record, env: PdfEnv): seq<Op> {
    TopOps(parte, env) + InfoRowsOps(WrapRows(AdditionalInfo(parte), env.font), InfoY(env) + 12)
  }

  /** Everything `generatePDF` draws, in order. */
  function PdfOps(parte: Record, env: PdfEnv): seq<Op> {
    FirstPageOps(parte, env)
    + GalleryOps(ImageList(Get(parte, "imagenes")), env.imageLoads)
    + SignatureOps(Get(parte, "firma"), env.pageHeight, env.signatureLoad)
  }

  // ---------------------------------------------------------------------
  // generatePDF, step by step
  // ---------------------------------------------------------------------

  method DrawAll(doc: Pdf, ops: seq<Op>)
    modifies doc
    ensures doc.ops == old(doc.ops) + ops
  {
    for k := 0 to |ops|
      invariant doc.ops == old(doc.ops) + ops[..k]
    {
      doc.Draw(ops[k]);
      assert ops[..k + 1] == ops[..k] + [ops[k]];
    }
    assert ops[..|ops|] == ops;
  }

  lemma Snoc(prefix: seq<Op>, ops: seq<Op>, op: Op)
    ensures prefix + ops + [op] == prefix + (ops + [op])
  {
  }

  /** The nested `forEach` over the information grid. */
  method DrawInfoGrid(doc: Pdf, grid: seq<seq<string>>)
    modifies doc
    ensures doc.ops == old(doc.ops) + GridOps(grid, |grid|)
  {
    ghost var start := doc.ops;
    for i := 0 to |grid|
      invariant doc.ops == start + GridOps(grid, i)
    {
      ghost var rowStart := doc.ops;
      for j := 0 to |grid[i]|
        invariant doc.ops == rowStart + CellOps(grid[i], i, j)
      {
        var x := if j < 2 then 15 else 105;
        var y := 70 + i * 15;
        var op := if j == 1 || j == 3 then Text(grid[i][j], x + 25, y, false) else Text(grid[i][j], x, y, false);
        doc.Draw(op);
        Snoc(rowStart, CellOps(grid[i], i, j), op);
      }
      Snoc2(start, GridOps(grid, i), CellOps(grid[i], i, |grid[i]|));
    }
  }

  lemma Snoc2(prefix: seq<Op>, ops: seq<Op>, more: seq<Op>)
    ensures prefix + ops + more == prefix + (ops + more)
  {
  }

  /** One row of the additional information: the label, then the value
      lines. */
  method DrawInfoRow(doc: Pdf, caption: string, lines: seq<string>, y: int)
    modifies doc
    ensures doc.ops == old(doc.ops) + RowOps(caption, lines, y)
  {
    ghost var start := doc.ops;
    var first := [Text(caption, 15, y, false)];
    doc.Draw(first[0]);
    for k := 0 to |lines|
      invariant doc.ops == start + (first + LineOps(lines, y, k))
    {
      var op := Text(lines[k], 85, y + k * 10, false);
      doc.Draw(op);
      Snoc(start, first + LineOps(lines, y, k), op);
      assert first + LineOps(lines, y, k) + [op] == first + LineOps(lines, y, k + 1);
    }
  }

  /** Drawing row r at cursor y leaves the rows after it, from the next
      cursor on, to complete the document. */
  lemma InfoRowsStep(before: seq<Op>, after: seq<Op>, rows: seq<(string, seq<string>)>, r: nat, y: int, caption: string, lines: seq<string>)
    requires r < |rows| && rows[r] == (caption, lines)
    requires after == before + RowOps(caption, lines, y)
    ensures after + InfoRowsOps(rows[r + 1..], y + Advance(|lines|)) == before + InfoRowsOps(rows[r..], y)
  {
    assert rows[r..][0] == rows[r] && rows[r..][1..] == rows[r + 1..];
  }

  /** `formatLongText(value, 100)` for row r. */
  method WrapRow(rows: seq<(string, Value)>, r: nat, font: Font, ghost wrapped: seq<(string, seq<string>)>)
    returns (lines: seq<string>)
    requires r < |rows| && wrapped == WrapRows(rows, font)
    ensures r < |wrapped| && wrapped[r] == (rows[r].0, lines)
  {
    lines := FormatLongText(rows[r].1, InfoMaxWidth, font);
  }

  /** Row r of the additional information drawn at cursor y: what is left to
      draw afterwards, from the new cursor on, completes what was left before. */
  method DrawInfoRowAt(doc: Pdf, caption: string, lines: seq<string>, y: int, ghost wrapped: seq<(string, seq<string>)>, ghost r: nat)
    returns (next: int)
    requires r < |wrapped| && wrapped[r] == (caption, lines)
    modifies doc
    ensures doc.ops + InfoRowsOps(wrapped[r + 1..], next) == old(doc.ops) + InfoRowsOps(wrapped[r..], y)
  {
    DrawInfoRow(doc, caption, lines, y);
    InfoRowsStep(old(doc.ops), doc.ops, wrapped, r, y, caption, lines);
    next := y + Advance(|lines|);
  }

  /** The `forEach` over the additional information: each label, its value
      wrapped by `formatLongText`, then the cursor moves down by
      `max(15, lines * 10 + 5)`. */
  method DrawAdditionalInfo(doc: Pdf, rows: seq<(string, Value)>, y0: int, font: Font)
    modifies doc
    ensures doc.ops == old(doc.ops) + InfoRowsOps(WrapRows(rows, font), y0)
  {
    ghost var start := doc.ops;
    ghost var wrapped := WrapRows(rows, font);
    var y := y0;
    for r := 0 to |rows|
      invariant start + InfoRowsOps(wrapped, y0) == doc.ops + InfoRowsOps(wrapped[r..], y)
    {
      var lines := WrapRow(rows, r, font, wrapped);
      y := DrawInfoRowAt(doc, rows[r].0, lines, y, wrapped, r);
    }
    assert wrapped[|rows|..] == [];
  }

  /** Picture i of the gallery at its place on the 2×2 grid. */
  method DrawSlot(doc: Pdf, i: nat, src: string, outcome: ImageLoad)
    modifies doc
    ensures doc.ops == old(doc.ops) + SlotOps(i, src, outcome)
  {
    ghost var start := doc.ops;
    var banner: seq<Op> := [];
    if i > 0 && i % ImagesPerPage == 0 {
      banner := BannerOps(ContinuationTitle);
      DrawAll(doc, banner);
    }
    var row := (i % ImagesPerPage) / 2;
    var col := i % 2;
    var x := ImageMargin + col * (ImageWidth + ImageMargin);
    var y := StartImageY + row * (ImageHeight + ImageMargin);
    AddImageToPdf(doc, src, x, y, ImageWidth, ImageHeight, outcome);
    doc.Draw(Frame(x, y, ImageWidth, ImageHeight));
    assert doc.ops == start + banner + ImageOps(src, x, y, ImageWidth, ImageHeight, outcome) + [Frame(x, y, ImageWidth, ImageHeight)];
  }

  lemma SlotsStep(prefix: seq<Op>, before: seq<Op>, after: seq<Op>, images: seq<string>, i: nat, loads: seq<ImageLoad>)
    requires i < |images|
    requires before == prefix + SlotsUpTo(images, i, loads)
    requires after == before + SlotOps(i, images[i], LoadOf(loads, i))
    ensures after == prefix + SlotsUpTo(images, i + 1, loads)
  {
  }

  /** The loop over the pictures. */
  method DrawSlots(doc: Pdf, images: seq<string>, loads: seq<ImageLoad>)
    modifies doc
    ensures doc.ops == old(doc.ops) + SlotsUpTo(images, |images|, loads)
  {
    ghost var prefix := doc.ops;
    for i := 0 to |images|
      invariant doc.ops == prefix + SlotsUpTo(images, i, loads)
    {
      ghost var before := doc.ops;
      DrawSlot(doc, i, images[i], LoadOf(loads, i));
      SlotsStep(prefix, before, doc.ops, images, i, loads);
    }
  }

  lemma GalleryDone(before: seq<Op>, after: seq<Op>, images: seq<string>, loads: seq<ImageLoad>)
    requires |images| > 0
    requires after == before + BannerOps(GalleryTitle) + SlotsUpTo(images, |images|, loads)
    ensures after == before + GalleryOps(images, loads)
  {
    Snoc2(before, BannerOps(GalleryTitle), SlotsUpTo(images, |images|, loads));
  }

  /** The gallery: a page per four pictures, every picture framed. */
  method DrawGallery(doc: Pdf, images: seq<string>, loads: seq<ImageLoad>)
    modifies doc
    ensures doc.ops == old(doc.ops) + GalleryOps(images, loads)
  {
    if |images| > 0 {
      ghost var before := doc.ops;
      DrawAll(doc, BannerOps(GalleryTitle));
      DrawSlots(doc, images, loads);
      GalleryDone(before, doc.ops, images, loads);
    }
  }

  method DrawSignature(doc: Pdf, firma: Value, pageHeight: int, outcome: ImageLoad)
    modifies doc
    ensures doc.ops == old(doc.ops) + SignatureOps(firma, pageHeight, outcome)
  {
    if Truthy(firma) {
      var lastY := pageHeight - 40;
      doc.Draw(Text("Firma del Trabajador", 15, lastY - 10, false));
      AddImageToPdf(doc, ToString(firma), 15, lastY, 50, 30, outcome);
    }
  }

  /** The header, the information grid, the details table and the panels. */
  method DrawTop(doc: Pdf, parte: Record, env: PdfEnv)
    modifies doc
    ensures doc.ops == old(doc.ops) + TopOps(parte, env)
  {
    DrawAll(doc, HeaderOps(parte));
    DrawInfoGrid(doc, InfoGrid(parte, env.dateText));
    DrawAll(doc, DetailsOps(parte));
    DrawAll(doc, OtherWorksOps(parte, env.tableFinalY + 10));
  }

  /** Everything before the gallery, on the first page. */
  method DrawFirstPage(doc: Pdf, parte: Record, env: PdfEnv)
    modifies doc
    ensures doc.ops == old(doc.ops) + FirstPageOps(parte, env)
  {
    DrawTop(doc, parte, env);
    var startY := env.tableFinalY + 10;
    DrawAdditionalInfo(doc, AdditionalInfo(parte), startY + 50 + 12, env.font);
  }

  /** `generatePDF`: a fresh document holding exactly the operations of
      `PdfOps`. */
  method GeneratePdf(parte: Record, env: PdfEnv) returns (doc: Pdf)
    ensures fresh(doc)
    ensures doc.ops == PdfOps(parte, env)
  {
    doc := new Pdf();
    DrawFirstPage(doc, parte, env);
    var images := ImageList(Get(parte, "imagenes"));
    DrawGallery(doc, images, env.imageLoads);
    var firma := Get(parte, "firma");
    DrawSignature(doc, firma, env.pageHeight, env.signatureLoad);
    PdfDone(doc.ops, parte, env, images, firma);
  }

  lemma PdfDone(ops: seq<Op>, parte: Record, env: PdfEnv, images: seq<string>, firma: Value)
    requires images == ImageList(Get(parte, "imagenes")) && firma == Get(parte, "firma")
    requires ops == [] + FirstPageOps(parte, env) + GalleryOps(images, env.imageLoads)
                    + SignatureOps(firma, env.pageHeight, env.signatureLoad)
    ensures ops == PdfOps(parte, env)
  {
    assert [] + FirstPageOps(parte, env) == FirstPageOps(parte, env);
  }

  // ---------------------------------------------------------------------
  // Pages: one for the work order, then one per four pictures
  // ---------------------------------------------------------------------

  lemma SlotBreaks(i: nat, src: string, outcome: ImageLoad)
    ensures PageBreaks(SlotOps(i, src, outcome)) == if i > 0 && i % ImagesPerPage == 0 then 1 else 0
  {
    var banner: seq<Op> := if i > 0 && i % ImagesPerPage == 0 then BannerOps(ContinuationTitle) else [];
    var image := ImageOps(src, SlotX(i), SlotY(i), ImageWidth, ImageHeight, outcome);
    var frame := [Frame(SlotX(i), SlotY(i), ImageWidth, ImageHeight)];
    PageBreaksAppend(banner + image, frame);
    PageBreaksAppend(banner, image);
  }

  /** Among the first k pictures (k >= 1) a continuation page precedes each
      of pictures 4, 8, ...: (k - 1) / 4 of them. */
  lemma {:induction false} SlotsBreaks(images: seq<string>, k: nat, loads: seq<ImageLoad>)
    requires 1 <= k <= |images|
    ensures PageBreaks(SlotsUpTo(images, k, loads)) == (k - 1) / ImagesPerPage
  {
    var last := SlotOps(k - 1, images[k - 1], LoadOf(loads, k - 1));
    PageBreaksAppend(SlotsUpTo(images, k - 1, loads), last);
    SlotBreaks(k - 1, images[k - 1], LoadOf(loads, k - 1));
    if k > 1 {
      SlotsBreaks(images, k - 1, loads);
    }
  }

  /** The gallery adds one page per started group of four pictures. */
  lemma GalleryBreaks(images: seq<string>, loads: seq<ImageLoad>)
    ensures PageBreaks(GalleryOps(images, loads)) == (|images| + 3) / ImagesPerPage
  {
    if |images| > 0 {
      PageBreaksAppend(BannerOps(GalleryTitle), SlotsUpTo(images, |images|, loads));
      SlotsBreaks(images, |images|, loads);
    }
  }

  lemma {:induction false} CellsNoBreak(row: seq<string>, i: nat, n: nat)
    requires n <= |row|
    ensures PageBreaks(CellOps(row, i, n)) == 0
  {
    if n > 0 {
      CellsNoBreak(row, i, n - 1);
      PageBreaksAppend(CellOps(row, i, n - 1), [Text(row[n - 1], CellX(n - 1), CellY(i), false)]);
    }
  }

  lemma {:induction false} GridNoBreak(grid: seq<seq<string>>, m: nat)
    requires m <= |grid|
    ensures PageBreaks(GridOps(grid, m)) == 0
  {
    if m > 0 {
      GridNoBreak(grid, m - 1);
      CellsNoBreak(grid[m - 1], m - 1, |grid[m - 1]|);
      PageBreaksAppend(GridOps(grid, m - 1), CellOps(grid[m - 1], m - 1, |grid[m - 1]|));
    }
  }

  lemma {:induction false} LinesNoBreak(lines: seq<string>, y: int, k: nat)
    requires k <= |lines|
    ensures PageBreaks(LineOps(lines, y, k)) == 0
  {
    if k > 0 {
      LinesNoBreak(lines, y, k - 1);
      PageBreaksAppend(LineOps(lines, y, k - 1), [Text(lines[k - 1], 85, y + (k - 1) * 10, false)]);
    }
  }

  lemma {:induction false} InfoRowsNoBreak(rows: seq<(string, seq<string>)>, y: int)
    ensures PageBreaks(InfoRowsOps(rows, y)) == 0
    decreases |rows|
  {
    if rows != [] {
      var lines := rows[0].1;
      LinesNoBreak(lines, y, |lines|);
      PageBreaksAppend([Text(rows[0].0, 15, y, false)], LineOps(lines, y, |lines|));
      InfoRowsNoBreak(rows[1..], y + Advance(|lines|));
      PageBreaksAppend(RowOps(rows[0].0, lines, y), InfoRowsOps(rows[1..], y + Advance(|lines|)));
    }
  }

  lemma TopNoBreak(parte: Record, env: PdfEnv)
    ensures PageBreaks(TopOps(parte, env)) == 0
  {
    var header := HeaderOps(parte);
    var grid := GridOps(InfoGrid(parte, env.dateText), 2);
    var details := DetailsOps(parte);
    var other := OtherWorksOps(parte, env.tableFinalY + 10);
    GridNoBreak(InfoGrid(parte, env.dateText), 2);
    NoPageBreakCount(header);
    NoPageBreakCount(details);
    NoPageBreakCount(other);
    PageBreaksAppend(header, grid);
    PageBreaksAppend(header + grid, details);
    PageBreaksAppend(header + grid + details, other);
  }

  /** Nothing before the gallery breaks the page. */
  lemma FirstPageNoBreak(parte: Record, env: PdfEnv)
    ensures PageBreaks(FirstPageOps(parte, env)) == 0
  {
    TopNoBreak(parte, env);
    InfoRowsNoBreak(WrapRows(AdditionalInfo(parte), env.font), InfoY(env) + 12);
    PageBreaksAppend(TopOps(parte, env), InfoRowsOps(WrapRows(AdditionalInfo(parte), env.font), InfoY(env) + 12));
  }

  lemma SignatureNoBreak(firma: Value, pageHeight: int, outcome: ImageLoad)
    ensures PageBreaks(SignatureOps(firma, pageHeight, outcome)) == 0
  {
    NoPageBreakCount(SignatureOps(firma, pageHeight, outcome));
  }

  /** The exported document has one page for the work order and one more for
      each started group of four pictures. */
  lemma PageCount(parte: Record, env: PdfEnv)
    ensures Pages(PdfOps(parte, env)) == 1 + (|ImageList(Get(parte, "imagenes"))| + 3) / 4
  {
    var first := FirstPageOps(parte, env);
    var gallery := GalleryOps(ImageList(Get(parte, "imagenes")), env.imageLoads);
    var signature := SignatureOps(Get(parte, "firma"), env.pageHeight, env.signatureLoad);
    FirstPageNoBreak(parte, env);
    GalleryBreaks(ImageList(Get(parte, "imagenes")), env.imageLoads);
    SignatureNoBreak(Get(parte, "firma"), env.pageHeight, env.signatureLoad);
    PageBreaksAppend(first, gallery);
    PageBreaksAppend(first + gallery, signature);
  }

  // ---------------------------------------------------------------------
  // Where each picture goes
  // ---------------------------------------------------------------------

  lemma {:induction false} SlotsPrefix(images: seq<string>, k: nat, n: nat, loads: seq<ImageLoad>)
    requires k <= n <= |images|
    ensures SlotsUpTo(images, k, loads) <= SlotsUpTo(images, n, loads)
    decreases n
  {
    if k < n {
      SlotsPrefix(images, k, n - 1, loads);
    }
  }

  lemma SlotEndsWithFrame(images: seq<string>, i: nat, loads: seq<ImageLoad>)
    requires i < |images|
    ensures var s := SlotsUpTo(images, i + 1, loads);
      |s| > 0 && s[|s| - 1] == Frame(SlotX(i), SlotY(i), ImageWidth, ImageHeight)
  {
  }

  lemma SlotInGalleryPrefix(images: seq<string>, i: nat, loads: seq<ImageLoad>)
    requires i < |images|
    ensures BannerOps(GalleryTitle) + SlotsUpTo(images, i + 1, loads) <= GalleryOps(images, loads)
  {
    SlotsPrefix(images, i + 1, |images|, loads);
  }

  lemma SlotInGalleryBreaks(images: seq<string>, i: nat, loads: seq<ImageLoad>)
    requires i < |images|
    ensures PageBreaks(BannerOps(GalleryTitle) + SlotsUpTo(images, i + 1, loads)) == 1 + i / ImagesPerPage
  {
    SlotsBreaks(images, i + 1, loads);
    PageBreaksAppend(BannerOps(GalleryTitle), SlotsUpTo(images, i + 1, loads));
  }

  lemma PrefixExtends(first: seq<Op>, part: seq<Op>, whole: seq<Op>, last: seq<Op>)
    requires part <= whole
    ensures first + part <= first + whole + last
  {
    assert first + whole + last == first + (whole + last);
  }

  lemma LastOfAppend(first: seq<Op>, part: seq<Op>)
    requires part != []
    ensures (first + part)[|first + part| - 1] == part[|part| - 1]
  {
  }

  /** Picture i is framed at its slot on page 2 + i / 4: the document up to
      that frame holds 1 + i / 4 page breaks, whatever the picture loads. */
  lemma PictureOnPage(parte: Record, env: PdfEnv, i: nat)
    requires i < |ImageList(Get(parte, "imagenes"))|
    ensures var images := ImageList(Get(parte, "imagenes"));
      var upTo := FirstPageOps(parte, env) + (BannerOps(GalleryTitle) + SlotsUpTo(images, i + 1, env.imageLoads));
      && upTo <= PdfOps(parte, env)
      && upTo[|upTo| - 1] == Frame(SlotX(i), SlotY(i), ImageWidth, ImageHeight)
      && Pages(upTo) == 2 + i / 4
  {
    var images := ImageList(Get(parte, "imagenes"));
    var first := FirstPageOps(parte, env);
    var gallery := BannerOps(GalleryTitle) + SlotsUpTo(images, i + 1, env.imageLoads);
    SlotInGalleryPrefix(images, i, env.imageLoads);
    PrefixExtends(first, gallery, GalleryOps(images, env.imageLoads),
      SignatureOps(Get(parte, "firma"), env.pageHeight, env.signatureLoad));
    SlotEndsWithFrame(images, i, env.imageLoads);
    LastOfAppend(BannerOps(GalleryTitle), SlotsUpTo(images, i + 1, env.imageLoads));
    LastOfAppend(first, gallery);
    FirstPageNoBreak(parte, env);
    SlotInGalleryBreaks(images, i, env.imageLoads);
    PageBreaksAppend(first, gallery);
  }

  /** Whether two picture slots share no point. */
  predicate Apart(i: nat, j: nat) {
    || SlotX(i) + ImageWidth <= SlotX(j) || SlotX(j) + ImageWidth <= SlotX(i)
    || SlotY(i) + ImageHeight <= SlotY(j) || SlotY(j) + ImageHeight <= SlotY(i)
  }

  /** The four places of a page: columns 15 and 115, rows 30 and 105. */
  lemma SlotPlace(i: nat)
    ensures SlotX(i) == (if i % 4 % 2 == 0 then 15 else 115)
    ensures SlotY(i) == (if i % 4 < 2 then 30 else 105)
  {
    assert i % 2 == i % 4 % 2;
  }

  lemma SamePageDistinctPlace(i: nat, j: nat)
    requires i != j && i / 4 == j / 4
    ensures i % 4 != j % 4
  {
  }

  lemma NextPageSamePlace(i: nat)
    ensures (i + 4) % 4 == i % 4
  {
  }

  /** Every slot lies within the page width, below the 20-high banner; two
      pictures on the same page never overlap; each page reuses the same four
      slots. */
  lemma SlotGeometry(i: nat, j: nat)
    ensures ImageMargin <= SlotX(i) && SlotX(i) + ImageWidth <= 210 - 10
    ensures 20 < SlotY(i) && SlotY(i) + ImageHeight <= 165
    ensures i != j && i / ImagesPerPage == j / ImagesPerPage ==> Apart(i, j)
    ensures SlotX(i + ImagesPerPage) == SlotX(i) && SlotY(i + ImagesPerPage) == SlotY(i)
  {
    SlotPlace(i);
    SlotPlace(j);
    SlotPlace(i + 4);
    NextPageSamePlace(i);
    if i != j && i / ImagesPerPage == j / ImagesPerPage {
      SamePageDistinctPlace(i, j);
    }
  }

  // ---------------------------------------------------------------------
  // A picture that fails to load only leaves its slot empty
  // ---------------------------------------------------------------------

  lemma SlotDrawn(i: nat, src: string, outcome: ImageLoad)
    ensures Drawn(SlotOps(i, src, outcome))
         == Drawn(if i > 0 && i % ImagesPerPage == 0 then BannerOps(ContinuationTitle) else [])
            + [Frame(SlotX(i), SlotY(i), ImageWidth, ImageHeight)]
  {
    var banner: seq<Op> := if i > 0 && i % ImagesPerPage == 0 then BannerOps(ContinuationTitle) else [];
    var image := ImageOps(src, SlotX(i), SlotY(i), ImageWidth, ImageHeight, outcome);
    var frame := [Frame(SlotX(i), SlotY(i), ImageWidth, ImageHeight)];
    DrawnAppend(banner + image, frame);
    DrawnAppend(banner, image);
    assert Drawn(image) == [];
  }

  lemma {:induction false} SlotsDrawn(images: seq<string>, k: nat, loads: seq<ImageLoad>, others: seq<ImageLoad>)
    requires k <= |images|
    ensures Drawn(SlotsUpTo(images, k, loads)) == Drawn(SlotsUpTo(images, k, others))
  {
    if k > 0 {
      SlotsDrawn(images, k - 1, loads, others);
      DrawnAppend(SlotsUpTo(images, k - 1, loads), SlotOps(k - 1, images[k - 1], LoadOf(loads, k - 1)));
      DrawnAppend(SlotsUpTo(images, k - 1, others), SlotOps(k - 1, images[k - 1], LoadOf(others, k - 1)));
      SlotDrawn(k - 1, images[k - 1], LoadOf(loads, k - 1));
      SlotDrawn(k - 1, images[k - 1], LoadOf(others, k - 1));
    }
  }

  lemma SignatureDrawn(firma: Value, pageHeight: int, outcome: ImageLoad, other: ImageLoad)
    ensures Drawn(SignatureOps(firma, pageHeight, outcome)) == Drawn(SignatureOps(firma, pageHeight, other))
  {
    if Truthy(firma) {
      var caption := [Text("Firma del Trabajador", 15, pageHeight - 40 - 10, false)];
      DrawnAppend(caption, ImageOps(ToString(firma), 15, pageHeight - 40, 50, 30, outcome));
      DrawnAppend(caption, ImageOps(ToString(firma), 15, pageHeight - 40, 50, 30, other));
    }
  }

  /** Whatever pictures fail to load, the document draws the same things
      apart from the pictures themselves: the export never stops on them. */
  lemma LoadsOnlyAddPictures(parte: Record, env: PdfEnv, loads: seq<ImageLoad>, signatureLoad: ImageLoad)
    ensures Drawn(PdfOps(parte, env))
         == Drawn(PdfOps(parte, env.(imageLoads := loads, signatureLoad := signatureLoad)))
  {
    var other := env.(imageLoads := loads, signatureLoad := signatureLoad);
    var images := ImageList(Get(parte, "imagenes"));
    var firma := Get(parte, "firma");
    assert FirstPageOps(parte, other) == FirstPageOps(parte, env);
    var first := FirstPageOps(parte, env);
    var g1 := GalleryOps(images, env.imageLoads);
    var g2 := GalleryOps(images, loads);
    if |images| > 0 {
      SlotsDrawn(images, |images|, env.imageLoads, loads);
      DrawnAppend(BannerOps(GalleryTitle), SlotsUpTo(images, |images|, env.imageLoads));
      DrawnAppend(BannerOps(GalleryTitle), SlotsUpTo(images, |images|, loads));
    }
    assert Drawn(g1) == Drawn(g2);
    SignatureDrawn(firma, env.pageHeight, env.signatureLoad, signatureLoad);
    DrawnAppend(first + g1, SignatureOps(firma, env.pageHeight, env.signatureLoad));
    DrawnAppend(first + g2, SignatureOps(firma, env.pageHeight, signatureLoad));
    DrawnAppend(first, g1);
    DrawnAppend(first, g2);
  }

  // ---------------------------------------------------------------------
  // The signature closes the last page
  // ---------------------------------------------------------------------

  /** With a signature, its caption and picture come after everything else
      and on the last page: no page break follows the gallery. */
  lemma SignatureOnLastPage(parte: Record, env: PdfEnv)
    requires Truthy(Get(parte, "firma"))
    ensures var before := FirstPageOps(parte, env) + GalleryOps(ImageList(Get(parte, "imagenes")), env.imageLoads);
      var ops := PdfOps(parte, env);
      && |before| < |ops|
      && ops[..|before|] == before
      && ops[|before|] == Text("Firma del Trabajador", 15, env.pageHeight - 50, false)
      && Pages(before) == Pages(ops)
  {
    var before := FirstPageOps(parte, env) + GalleryOps(ImageList(Get(parte, "imagenes")), env.imageLoads);
    var signature := SignatureOps(Get(parte, "firma"), env.pageHeight, env.signatureLoad);
    SignatureNoBreak(Get(parte, "firma"), env.pageHeight, env.signatureLoad);
    PageBreaksAppend(before, signature);
    assert PdfOps(parte, env) == before + signature;
  }

  // ---------------------------------------------------------------------
  // The additional-information rows stack downwards without overlapping
  // ---------------------------------------------------------------------

  /** Every op is a text whose baseline lies between lo and hi. */
  predicate TextsBetween(ops: seq<Op>, lo: int, hi: int) {
    forall k :: 0 <= k < |ops| ==> ops[k].Text? && lo <= ops[k].y <= hi
  }

  /** Texts never go back up the page. */
  predicate TopDown(ops: seq<Op>) {
    forall k :: 0 <= k < |ops| - 1 ==> ops[k].Text? && ops[k + 1].Text? ==> ops[k].y <= ops[k + 1].y
  }

  /** The total height the cursor moves down over the rows. */
  function RowsHeight(rows: seq<(string, seq<string>)>): int
    decreases |rows|
  {
    if rows == [] then 0 else Advance(|rows[0].1|) + RowsHeight(rows[1..])
  }

  lemma Stack(a: seq<Op>, b: seq<Op>, lo: int, mid: int, next: int, hi: int)
    requires TextsBetween(a, lo, mid) && TextsBetween(b, next, hi)
    requires TopDown(a) && TopDown(b)
    requires lo <= next && mid <= next && mid <= hi
    ensures TextsBetween(a + b, lo, hi) && TopDown(a + b)
  {
    var ab := a + b;
    forall k | 0 <= k < |ab| - 1 && ab[k].Text? && ab[k + 1].Text?
      ensures ab[k].y <= ab[k + 1].y
    {
      if k + 1 < |a| {
        assert ab[k] == a[k] && ab[k + 1] == a[k + 1];
      } else if k + 1 == |a| {
        assert ab[k] == a[k] && ab[k + 1] == b[0];
      } else {
        assert ab[k] == b[k - |a|] && ab[k + 1] == b[k - |a| + 1];
      }
    }
  }

  lemma {:induction false} LinesBand(lines: seq<string>, y: int, k: nat)
    requires k <= |lines|
    ensures TextsBetween(LineOps(lines, y, k), y, y + Advance(k) - 15)
    ensures TopDown(LineOps(lines, y, k))
  {
    if k > 0 {
      LinesBand(lines, y, k - 1);
      var last := [Text(lines[k - 1], 85, y + (k - 1) * 10, false)];
      Stack(LineOps(lines, y, k - 1), last, y, y + Advance(k - 1) - 15, y + (k - 1) * 10, y + Advance(k) - 15);
    }
  }

  /** A row's caption and lines all lie in its band, which the cursor then
      leaves 15 below the last line. */
  lemma RowBand(caption: string, lines: seq<string>, y: int)
    ensures TextsBetween(RowOps(caption, lines, y), y, y + Advance(|lines|) - 15)
    ensures TopDown(RowOps(caption, lines, y))
  {
    LinesBand(lines, y, |lines|);
    Stack([Text(caption, 15, y, false)], LineOps(lines, y, |lines|), y, y, y, y + Advance(|lines|) - 15);
  }

  /** The rows start at y, go only downwards, and end 15 above where the
      cursor stops; each row takes at least 15. */
  lemma {:induction false} InfoRowsBand(rows: seq<(string, seq<string>)>, y: int)
    ensures RowsHeight(rows) >= 15 * |rows|
    ensures TextsBetween(InfoRowsOps(rows, y), y, y + RowsHeight(rows) - 15)
    ensures TopDown(InfoRowsOps(rows, y))
    decreases |rows|
  {
    if rows != [] {
      var a := Advance(|rows[0].1|);
      InfoRowsBand(rows[1..], y + a);
      RowBand(rows[0].0, rows[0].1, y);
      Stack(RowOps(rows[0].0, rows[0].1, y), InfoRowsOps(rows[1..], y + a),
        y, y + a - 15, y + a, y + RowsHeight(rows) - 15);
    }
  }

  /** The additional information starts 72 below the end of the details
      table, 12 into its panel, goes only downwards, and its three rows take
      at least 45 of height between them. */
  lemma AdditionalInfoBand(parte: Record, env: PdfEnv)
    ensures var rows := WrapRows(AdditionalInfo(parte), env.font);
      && RowsHeight(rows) >= 45
      && TextsBetween(InfoRowsOps(rows, InfoY(env) + 12), env.tableFinalY + 72, env.tableFinalY + 57 + RowsHeight(rows))
      && TopDown(InfoRowsOps(rows, InfoY(env) + 12))
  {
    var rows := WrapRows(AdditionalInfo(parte), env.font);
    InfoRowsBand(rows, InfoY(env) + 12);
  }

  // ---------------------------------------------------------------------
  // The rows as the source draws them
  // ---------------------------------------------------------------------

  /** What the wrapper returns for each row's value, as written. */
  function WrapOutcomes(rows: seq<(string, Value)>, font: Font): (r: seq<(string, WrapOutcome)>)
    ensures |r| == |rows|
  {
    seq(|rows|, k requires 0 <= k < |rows| => (rows[k].0, FormatLongTextAsWritten(rows[k].1, InfoMaxWidth, font)))
  }

  /** The additional-information rows as exportService.js draws them: for a
      falsy value the wrapper returns '' rather than an array, and iterating
      over its lines throws a TypeError, so the export stops (None). */
  function InfoRowsAsWritten(outcomes: seq<(string, WrapOutcome)>, y: int): Option<seq<Op>>
    decreases |outcomes|
  {
    if outcomes == [] then Some([])
    else
      match outcomes[0].1
      case EmptyString => None
      case LineArray(lines) =>
        var rest := InfoRowsAsWritten(outcomes[1..], y + Advance(|lines|));
        if rest.None? then None else Some(RowOps(outcomes[0].0, lines, y) + rest.value)
  }

  /** Every wrapper call returned an array. */
  predicate AllArrays(outcomes: seq<(string, WrapOutcome)>) {
    forall k :: 0 <= k < |outcomes| ==> outcomes[k].1.LineArray?
  }

  lemma AllArraysCons(outcomes: seq<(string, WrapOutcome)>)
    requires outcomes != []
    ensures AllArrays(outcomes) <==> outcomes[0].1.LineArray? && AllArrays(outcomes[1..])
  {
    assert forall k :: 1 <= k < |outcomes| ==> outcomes[1..][k - 1] == outcomes[k];
  }

  /** The drawing stops exactly when some wrapper call returned ''. */
  lemma {:induction false} InfoRowsAsWrittenStops(outcomes: seq<(string, WrapOutcome)>, y: int)
    ensures InfoRowsAsWritten(outcomes, y).Some? <==> AllArrays(outcomes)
    decreases |outcomes|
  {
    if outcomes != [] {
      AllArraysCons(outcomes);
      match outcomes[0].1
      case EmptyString =>
      case LineArray(lines) =>
        InfoRowsAsWrittenStops(outcomes[1..], y + Advance(|lines|));
    }
  }

  /** Each outcome is the array of the corresponding wrapped row. */
  predicate Matches(outcomes: seq<(string, WrapOutcome)>, wrapped: seq<(string, seq<string>)>) {
    |outcomes| == |wrapped| &&
    forall k :: 0 <= k < |outcomes| ==> outcomes[k] == (wrapped[k].0, LineArray(wrapped[k].1))
  }

  lemma MatchesTail(outcomes: seq<(string, WrapOutcome)>, wrapped: seq<(string, seq<string>)>)
    requires outcomes != [] && Matches(outcomes, wrapped)
    ensures Matches(outcomes[1..], wrapped[1..])
  {
    assert forall k :: 1 <= k < |outcomes| ==> outcomes[1..][k - 1] == outcomes[k] && wrapped[1..][k - 1] == wrapped[k];
  }

  /** Where every call returned an array the source draws exactly the rows of
      the corrected model. */
  lemma {:induction false} InfoRowsAgree(outcomes: seq<(string, WrapOutcome)>, wrapped: seq<(string, seq<string>)>, y: int)
    requires Matches(outcomes, wrapped)
    ensures InfoRowsAsWritten(outcomes, y) == Some(InfoRowsOps(wrapped, y))
    decreases |outcomes|
  {
    if outcomes != [] {
      assert outcomes[0] == (wrapped[0].0, LineArray(wrapped[0].1));
      MatchesTail(outcomes, wrapped);
      InfoRowsAgree(outcomes[1..], wrapped[1..], y + Advance(|wrapped[0].1|));
    }
  }

  lemma OutcomesArrays(rows: seq<(string, Value)>, font: Font)
    ensures AllArrays(WrapOutcomes(rows, font)) <==> forall k :: 0 <= k < |rows| ==> Truthy(rows[k].1)
  {
    var outcomes := WrapOutcomes(rows, font);
    assert forall k :: 0 <= k < |rows| ==> outcomes[k].1 == FormatLongTextAsWritten(rows[k].1, InfoMaxWidth, font);
  }

  lemma OutcomesMatch(rows: seq<(string, Value)>, font: Font)
    requires forall k :: 0 <= k < |rows| ==> Truthy(rows[k].1)
    ensures Matches(WrapOutcomes(rows, font), WrapRows(rows, font))
  {
    var outcomes := WrapOutcomes(rows, font);
    var wrapped := WrapRows(rows, font);
    forall k | 0 <= k < |rows|
      ensures outcomes[k] == (wrapped[k].0, LineArray(wrapped[k].1))
    {
      AsWrittenOnTruthy(rows[k].1, InfoMaxWidth, font);
    }
  }

  lemma OrEmptyTruthy(v: Value)
    ensures Truthy(Or(v, Str(""))) <==> Truthy(v)
  {
  }

  lemma AdditionalInfoTruthy(parte: Record)
    ensures (forall k :: 0 <= k < |AdditionalInfo(parte)| ==> Truthy(AdditionalInfo(parte)[k].1))
        <==> Truthy(Get(parte, "tiempo_empleado")) && Truthy(Get(parte, "estado")) && Truthy(Get(parte, "coste_trabajos"))
  {
    var info := AdditionalInfo(parte);
    assert (forall k :: 0 <= k < |info| ==> Truthy(info[k].1))
        <==> Truthy(info[0].1) && Truthy(info[1].1) && Truthy(info[2].1);
    OrEmptyTruthy(Get(parte, "tiempo_empleado"));
    OrEmptyTruthy(Get(parte, "estado"));
    assert Truthy(info[2].1) <==> Truthy(Get(parte, "coste_trabajos")) by {
      if Truthy(Get(parte, "coste_trabajos")) {
        var text := ToString(Get(parte, "coste_trabajos")) + "€";
        assert text[|text| - 1] == '€';
      }
    }
  }

  /** As written, a work order lacking its time, its state or its cost
      (or carrying 0 or '' there) cannot be exported: the additional
      information stops with a TypeError. With all three the source draws
      the rows of the corrected model. */
  lemma AsWrittenExport(parte: Record, y: int, font: Font)
    ensures InfoRowsAsWritten(WrapOutcomes(AdditionalInfo(parte), font), y).None?
        <==> !Truthy(Get(parte, "tiempo_empleado")) || !Truthy(Get(parte, "estado")) || !Truthy(Get(parte, "coste_trabajos"))
    ensures InfoRowsAsWritten(WrapOutcomes(AdditionalInfo(parte), font), y).Some?
        ==> InfoRowsAsWritten(WrapOutcomes(AdditionalInfo(parte), font), y).value
            == InfoRowsOps(WrapRows(AdditionalInfo(parte), font), y)
  {
    var rows := AdditionalInfo(parte);
    AdditionalInfoTruthy(parte);
    OutcomesArrays(rows, font);
    InfoRowsAsWrittenStops(WrapOutcomes(rows, font), y);
    if forall k :: 0 <= k < |rows| ==> Truthy(rows[k].1) {
      OutcomesMatch(rows, font);
      InfoRowsAgree(WrapOutcomes(rows, font), WrapRows(rows, font), y);
    }
  }

  /** The corrected rows end with the bare caption of a row with no lines,
      at the height the rows before it leave the cursor. */
  lemma EmptyLastRow(wrapped: seq<(string, seq<string>)>, y: int)
    requires wrapped != [] && wrapped[|wrapped| - 1].1 == []
    ensures var ops := InfoRowsOps(wrapped, y);
      |ops| > 0 && ops[|ops| - 1] == Text(wrapped[|wrapped| - 1].0, 15, y + RowsHeight(wrapped[..|wrapped| - 1]), false)
  {
    var prefix := wrapped[..|wrapped| - 1];
    var caption := wrapped[|wrapped| - 1].0;
    assert wrapped == prefix + [(caption, [])];
    InfoRowsSnoc(prefix, caption, y);
  }

  /** Appending a row with no lines appends its caption alone. */
  lemma {:induction false} InfoRowsSnoc(prefix: seq<(string, seq<string>)>, caption: string, y: int)
    ensures InfoRowsOps(prefix + [(caption, [])], y)
      == InfoRowsOps(prefix, y) + [Text(caption, 15, y + RowsHeight(prefix), false)]
    decreases |prefix|
  {
    var rows := prefix + [(caption, [])];
    if prefix == [] {
      assert rows == [(caption, [])];
      OneEmptyRow(rows, y);
    } else {
      var next := y + Advance(|prefix[0].1|);
      assert rows[0] == prefix[0] && rows[1..] == prefix[1..] + [(caption, [])];
      InfoRowsCons(rows, y);
      InfoRowsCons(prefix, y);
      InfoRowsSnoc(prefix[1..], caption, next);
    }
  }

  lemma OneEmptyRow(wrapped: seq<(string, seq<string>)>, y: int)
    requires |wrapped| == 1 && wrapped[0].1 == []
    ensures InfoRowsOps(wrapped, y) == [Text(wrapped[0].0, 15, y, false)]
  {
    assert wrapped[1..] == [];
    assert LineOps([], y, 0) == [];
  }

  lemma InfoRowsCons(wrapped: seq<(string, seq<string>)>, y: int)
    requires wrapped != []
    ensures InfoRowsOps(wrapped, y)
      == RowOps(wrapped[0].0, wrapped[0].1, y) + InfoRowsOps(wrapped[1..], y + Advance(|wrapped[0].1|))
  {
  }

  /** A pending work order with no cost yet: the source throws, while the
      corrected model ends the rows with the bare "Coste:" caption. */
  lemma MissingCostAborts(y: int, font: Font)
    ensures var parte := map["tiempo_empleado" := Str("2 horas"), "estado" := Str("Pendiente")];
      var ops := InfoRowsOps(WrapRows(AdditionalInfo(parte), font), y);
      && InfoRowsAsWritten(WrapOutcomes(AdditionalInfo(parte), font), y) == None
      && |ops| > 0 && ops[|ops| - 1].Text? && ops[|ops| - 1].s == "Coste:"
  {
    var parte := map["tiempo_empleado" := Str("2 horas"), "estado" := Str("Pendiente")];
    var wrapped := WrapRows(AdditionalInfo(parte), font);
    AsWrittenExport(parte, y, font);
    WrapFalsy(Str(""), InfoMaxWidth, font);
    assert wrapped[2] == ("Coste:", []);
    EmptyLastRow(wrapped, y);
  }
}
