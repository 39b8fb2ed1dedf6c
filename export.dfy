/** The "Download Report" export: a two-sheet workbook and its file name. */
module Export {
  import opened Options
  import opened Timestamps
  import opened RecordStore
  import opened FilterEngine

  const ReportPrefix: string := "Waste_Report_"
  const ReportExtension: string := ".xlsx"
  const SpreadsheetMimeType: string := "application/vnd.openxmlformats-officedocument.spreadsheetml.sheet"
  const IncomingSheetName: string := "Incoming"
  const OutgoingSheetName: string := "Outgoing"

  /** The calendar dates of the bounds; None for NaT. */
  function BoundDates(b: Bounds): Option<(Date, Date)> {
    match b
    case Between(s, e) => Some((s.date, e.date))
    case Undefined => None
  }

  /**
   * `f"Waste_Report_{start_date.date()}_{end_date.date()}.xlsx"`; a NaT
   * bound's date is NaT again, which formats as "NaT".
   */
  function ExportFileName(b: Bounds): (name: string)
    ensures |name| > |ReportPrefix| + |ReportExtension|
    ensures name[..|ReportPrefix|] == ReportPrefix
    ensures name[|name| - |ReportExtension|..] == ReportExtension
  {
    match b
    case Between(s, e) => ReportPrefix + IsoDate(s.date) + "_" + IsoDate(e.date) + ReportExtension
    case Undefined => ReportPrefix + "NaT_NaT" + ReportExtension
  }

  /** Reads the two dates back out of an export file name; None if it does not carry two ISO dates. */
  function ParseExportFileName(name: string): Option<(Date, Date)> {
    if |name| != 39 || name[..13] != ReportPrefix || name[23] != '_' || name[34..] != ReportExtension then None
    else match (ParseIsoDate(name[13..23]), ParseIsoDate(name[24..34]))
      case (Some(s), Some(e)) => Some((s, e))
      case _ => None
  }

  /** The file name carries exactly the two bound dates, and nothing for NaT bounds. */
  lemma ExportFileNameRoundTrip(b: Bounds)
    ensures ParseExportFileName(ExportFileName(b)) == BoundDates(b)
  {
    var name := ExportFileName(b);
    match b {
      case Between(s, e) =>
        assert name[13..23] == IsoDate(s.date);
        assert name[24..34] == IsoDate(e.date);
        IsoDateRoundTrip(s.date);
        IsoDateRoundTrip(e.date);
      case Undefined =>
    }
  }

  /**
   * Two exports get the same file name exactly when their bounds have the
   * same two dates: the name depends on nothing else, and tells dates apart.
   */
  lemma ExportFileNameIdentifiesDates(b1: Bounds, b2: Bounds)
    ensures ExportFileName(b1) == ExportFileName(b2) <==> BoundDates(b1) == BoundDates(b2)
  {
    ExportFileNameRoundTrip(b1);
    ExportFileNameRoundTrip(b2);
  }

  /** One sheet of the workbook: its name and the frame written to it, without the index. */
  datatype Worksheet = Worksheet(name: string, frame: Frame)

  /** What the download button offers: file name, MIME type and sheets. */
  datatype Report = Report(fileName: string, mimeType: string, sheets: seq<Worksheet>)

  /** The first sheet with the given name, as a reader of the workbook would find it. */
  function SheetNamed(sheets: seq<Worksheet>, name: string): Option<Frame> {
    if sheets == [] then None
    else if sheets[0].name == name then Some(sheets[0].frame)
    else SheetNamed(sheets[1..], name)
  }

  /**
   * The export: copies of the filtered frames on the "Incoming" and
   * "Outgoing" sheets. Reading the workbook back gives the filtered frames
   * row for row and column for column, and the file name gives back the
   * bound dates.
   */
  function ExportReport(fin: Frame, fout: Frame, b: Bounds): (r: Report)
    ensures SheetNamed(r.sheets, IncomingSheetName) == Some(fin)
    ensures SheetNamed(r.sheets, OutgoingSheetName) == Some(fout)
    ensures ParseExportFileName(r.fileName) == BoundDates(b)
    ensures r.mimeType == SpreadsheetMimeType
  {
    ExportFileNameRoundTrip(b);
    Report(
      ExportFileName(b),
      SpreadsheetMimeType,
      [Worksheet(IncomingSheetName, fin), Worksheet(OutgoingSheetName, fout)])
  }
}
