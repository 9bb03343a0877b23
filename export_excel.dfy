/**
  The spreadsheet exports of exportService.js: one work order to a one-row
  sheet, and every listed work order to a sheet with one row each. A row is
  the object handed to the spreadsheet writer: its keys (the column
  headers) in order, each with its cell. Writing the file is left out; the
  workbook records what would be written and under which name.
*/
module ExportExcel {
  import opened Js

  /** How a column takes its cell from a work order: a field with the value
      put in its place when the field is falsy (the source's `||`), or a date
      field printed in the local format when it is truthy and '' otherwise. */
  datatype Column =
    | Field(header: string, key: string, otherwise: Value)
    | Date(header: string, key: string, withTime: bool)

  /** The local date printing of the browser (`toLocaleDateString` and
      `toLocaleString`), outside what the model decides. */
  datatype Locale = Locale(dateText: Value -> string, dateTimeText: Value -> string)

  type Row = seq<(string, Value)>

  datatype Workbook = Workbook(sheetName: string, rows: seq<Row>, columnWidths: seq<nat>, fileName: string)

  /** The eleven columns of the one-work-order export. */
  const SingleColumns: seq<Column> := [
    Field("Obra", "nombre_obra", Str("")),
    Field("Trabajador", "nombre_trabajador", Str("")),
    Field("Fecha", "fecha", Str("")),
    Field("Email", "email_contacto", Str("")),
    Field("Velas", "num_velas", Number(0)),
    Field("Puntos PVC", "num_puntos_pvc", Number(0)),
    Field("Montaje Aparatos", "num_montaje_aparatos", Number(0)),
    Field("Otros Trabajos", "otros_trabajos", Str("")),
    Field("Tiempo Empleado", "tiempo_empleado", Str("")),
    Field("Coste", "coste_trabajos", Str("")),
    Field("Estado", "estado", Str(""))
  ]

  /** The fifteen columns of the export of every work order. */
  const AllColumns: seq<Column> := [
    Field("Nº Parte", "numero_parte", Str("")),
    Field("ID", "id", Str("")),
    Date("Fecha", "fecha", false),
    Field("Obra", "nombre_obra", Str("")),
    Field("Trabajador", "nombre_trabajador", Str("")),
    Field("Email", "email_contacto", Str("")),
    Field("Velas", "num_velas", Number(0)),
    Field("Puntos PVC", "num_puntos_pvc", Number(0)),
    Field("Montaje Aparatos", "num_montaje_aparatos", Number(0)),
    Field("Otros Trabajos", "otros_trabajos", Str("")),
    Field("Tiempo Empleado", "tiempo_empleado", Str("")),
    Field("Coste (€)", "coste_trabajos", Str("")),
    Field("Estado", "estado", Str("")),
    Date("Fecha Creación", "created_at", true),
    Date("Última Modificación", "updated_at", true)
  ]

  /** The column widths, in characters, of the export of every work order. */
  const AllColumnWidths: seq<nat> := [8, 8, 12, 30, 20, 25, 8, 12, 15, 40, 15, 10, 12, 20, 20]

  /** The fields that count installed items. */
  const CountKeys: set<string> := {"num_velas", "num_puntos_pvc", "num_montaje_aparatos"}

  /** What an export shows for a falsy field: 0 for a count, '' otherwise. */
  function Default(key: string): Value {
    if key in CountKeys then Number(0) else Str("")
  }

  const SingleSheetName: string := "Parte de Trabajo"
  const AllSheetName: string := "Partes de Trabajo"

  /** The cell a column takes from a work order. */
  function CellOf(parte: Record, column: Column, locale: Locale): (v: Value)
    ensures column.Field? && Truthy(Get(parte, column.key)) ==> v == Get(parte, column.key)
    ensures column.Field? && !Truthy(Get(parte, column.key)) ==> v == column.otherwise
    ensures column.Date? && !Truthy(Get(parte, column.key)) ==> v == Str("")
    ensures column.Date? ==> v.Str?
  {
    match column
    case Field(_, key, otherwise) => Or(Get(parte, key), otherwise)
    case Date(_, key, withTime) =>
      var v := Get(parte, key);
      if !Truthy(v) then Str("")
      else if withTime then Str(locale.dateTimeText(v))
      else Str(locale.dateText(v))
  }

  /** The row of one work order: one cell per column, under its header. */
  function RowOf(parte: Record, columns: seq<Column>, locale: Locale): (r: Row)
    ensures |r| == |columns|
    ensures forall k :: 0 <= k < |r| ==> r[k].0 == columns[k].header
  {
    seq(|columns|, k requires 0 <= k < |columns| => (columns[k].header, CellOf(parte, columns[k], locale)))
  }

  /** `exportToExcel`: a one-row sheet named "Parte de Trabajo", saved as
      parte_<id>.xlsx. Its columns hold no date, so no locale is needed. */
  function ExportToExcel(parte: Record): (w: Workbook)
    ensures w.sheetName == SingleSheetName && |w.rows| == 1 && w.columnWidths == []
    ensures w.fileName == "parte_" + ToString(Get(parte, "id")) + ".xlsx"
    ensures |w.rows[0]| == |SingleColumns|
    ensures forall k :: 0 <= k < |SingleColumns| ==>
      w.rows[0][k] == (SingleColumns[k].header, Or(Get(parte, SingleColumns[k].key), SingleColumns[k].otherwise))
  {
    var noDates := Locale(v => "", v => "");
    Workbook(SingleSheetName, [RowOf(parte, SingleColumns, noDates)], [], "parte_" + ToString(Get(parte, "id")) + ".xlsx")
  }

  /** `exportAllToExcel`: one row per work order, in list order, on a sheet
      named "Partes de Trabajo" with the fifteen column widths, saved under
      the day of `now` (the current time as an ISO timestamp). */
  function ExportAllToExcel(partes: seq<Record>, locale: Locale, now: string): (w: Workbook)
    ensures w.sheetName == AllSheetName && w.columnWidths == AllColumnWidths
    ensures |w.rows| == |partes|
    ensures forall i :: 0 <= i < |partes| ==> w.rows[i] == RowOf(partes[i], AllColumns, locale)
  {
    var rows := seq(|partes|, i requires 0 <= i < |partes| => RowOf(partes[i], AllColumns, locale));
    Workbook(AllSheetName, rows, AllColumnWidths, "partes_trabajo_" + DatePart(now) + ".xlsx")
  }

  // ---------------------------------------------------------------------
  // Properties
  // ---------------------------------------------------------------------

  /** The cell of a field column is never null or undefined when its
      replacement is not. */
  predicate DefinedCells(columns: seq<Column>) {
    forall k :: 0 <= k < |columns| ==> columns[k].Date? || columns[k].otherwise != Null
  }

  lemma {:induction false} RowHasNoNull(parte: Record, columns: seq<Column>, locale: Locale)
    requires DefinedCells(columns)
    ensures forall k :: 0 <= k < |columns| ==> RowOf(parte, columns, locale)[k].1 != Null
  {
    var r := RowOf(parte, columns, locale);
    forall k | 0 <= k < |columns|
      ensures r[k].1 != Null
    {
      assert r[k].1 == CellOf(parte, columns[k], locale);
    }
  }

  /** Neither export hands the writer an undefined cell: every missing or
      falsy field becomes '' or 0. */
  lemma NoUndefinedCells(parte: Record, partes: seq<Record>, locale: Locale, now: string)
    ensures forall k :: 0 <= k < |SingleColumns| ==> ExportToExcel(parte).rows[0][k].1 != Null
    ensures forall i, k :: 0 <= i < |partes| && 0 <= k < |AllColumns| ==>
      ExportAllToExcel(partes, locale, now).rows[i][k].1 != Null
  {
    RowHasNoNull(parte, SingleColumns, Locale(v => "", v => ""));
    forall i | 0 <= i < |partes|
      ensures forall k :: 0 <= k < |AllColumns| ==> ExportAllToExcel(partes, locale, now).rows[i][k].1 != Null
    {
      RowHasNoNull(partes[i], AllColumns, locale);
    }
  }

  /** Every row of both exports has a cell per column, and the full export
      one width per column. */
  lemma ColumnLayout(parte: Record, partes: seq<Record>, locale: Locale, now: string)
    ensures |ExportToExcel(parte).rows[0]| == 11
    ensures forall i :: 0 <= i < |partes| ==> |ExportAllToExcel(partes, locale, now).rows[i]| == |AllColumnWidths| == 15
  {
  }

  /** Each field column of both tables falls back to the default of its
      field. */
  lemma TableDefaults()
    ensures forall k :: 0 <= k < |SingleColumns| ==> SingleColumns[k].Field? && SingleColumns[k].otherwise == Default(SingleColumns[k].key)
    ensures forall k :: 0 <= k < |AllColumns| && AllColumns[k].Field? ==> AllColumns[k].otherwise == Default(AllColumns[k].key)
  {
  }

  /** In both exports a falsy count is 0 and any other falsy field is '';
      the one-work-order export shows every truthy field as it is. */
  lemma CellDefaults(parte: Record, locale: Locale)
    ensures forall k :: 0 <= k < |SingleColumns| && !Truthy(Get(parte, SingleColumns[k].key)) ==>
      CellOf(parte, SingleColumns[k], locale) == Default(SingleColumns[k].key)
    ensures forall k :: 0 <= k < |SingleColumns| && Truthy(Get(parte, SingleColumns[k].key)) ==>
      CellOf(parte, SingleColumns[k], locale) == Get(parte, SingleColumns[k].key)
    ensures forall k :: 0 <= k < |AllColumns| && !Truthy(Get(parte, AllColumns[k].key)) ==>
      CellOf(parte, AllColumns[k], locale) == Default(AllColumns[k].key)
  {
    TableDefaults();
  }

  /** The file of the full export is named after the day of the timestamp. */
  lemma AllFileName(partes: seq<Record>, locale: Locale, day: string, time: string)
    requires 'T' !in day
    ensures ExportAllToExcel(partes, locale, day + "T" + time).fileName == "partes_trabajo_" + day + ".xlsx"
  {
    DatePartOf(day, time);
  }
}
