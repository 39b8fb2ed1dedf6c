/**
 * The two ticket sheets after loading: typed rows, and column headers that
 * the load step strips of surrounding whitespace in place.
 */
module RecordStore {
  import opened Options
  import opened Text
  import opened Timestamps

  const TicketDateColumn: string := "Ticket Date"
  const CustomerNameColumn: string := "Customer Name"
  const WasteTypeColumn: string := "Waste Type ID"
  const NetWeightColumn: string := "Net Weight (tn)"
  const CostColumn: string := "Cost"
  const CostPerTonneColumn: string := "Cost Per Tonne"
  const GradeColumn: string := "Grade"

  /**
   * One ticket row. `wasteType` is the cell as text before stripping. The
   * optional cells are None where the sheet holds NaN; when a sheet has no
   * such column at all, the `columns` of its frame say so and the cell is
   * never read.
   */
  datatype Record = Record(
    ticketDate: Timestamp,
    customer: string,
    wasteType: string,
    netWeight: real,
    cost: Option<real>,
    costPerTonne: Option<real>,
    grade: Option<string>)

  /** A data frame: its column headers and its rows, in sheet order. */
  datatype Frame = Frame(columns: seq<string>, rows: seq<Record>)

  /** `name in frame.columns`. */
  predicate HasColumn(f: Frame, name: string) {
    name in f.columns
  }

  /** `columns.str.strip()`: every header stripped, order and count kept. */
  function StripAll(names: seq<string>): (r: seq<string>)
    ensures |r| == |names|
  {
    seq(|names|, i requires 0 <= i < |names| => Trim(names[i]))
  }

  /** After stripping, a header is found exactly when some raw header strips to it. */
  lemma StrippedHeaderFound(names: seq<string>, name: string)
    ensures name in StripAll(names) <==> exists i :: 0 <= i < |names| && Trim(names[i]) == name
  {
    var r := StripAll(names);
    if name in r {
      var i :| 0 <= i < |r| && r[i] == name;
      assert Trim(names[i]) == name;
    }
    if exists i :: 0 <= i < |names| && Trim(names[i]) == name {
      var i :| 0 <= i < |names| && Trim(names[i]) == name;
      assert r[i] == name;
    }
  }

  /** Stripping the headers a second time changes nothing. */
  lemma StripAllIdempotent(names: seq<string>)
    ensures StripAll(StripAll(names)) == StripAll(names)
  {
    forall i | 0 <= i < |names|
      ensures StripAll(StripAll(names))[i] == StripAll(names)[i]
    {
      TrimIdempotent(names[i]);
    }
  }

  /** A sheet as loaded by `pd.read_excel`; the load step rewrites its headers in place. */
  class Sheet {
    var columns: seq<string>
    var rows: seq<Record>

    constructor (columns: seq<string>, rows: seq<Record>)
      ensures this.columns == columns && this.rows == rows
    {
      this.columns := columns;
      this.rows := rows;
    }

    /** The sheet's current contents as a frame value. */
    function Contents(): (f: Frame)
      reads this
      ensures f.columns == columns && f.rows == rows
    {
      Frame(columns, rows)
    }

    /** `df.columns = df.columns.str.strip()`: headers stripped, rows untouched. */
    method StripColumnNames()
      modifies this
      ensures columns == StripAll(old(columns))
      ensures rows == old(rows)
      ensures forall name :: HasColumn(Contents(), name) <==>
        exists i :: 0 <= i < |old(columns)| && Trim(old(columns)[i]) == name
    {
      columns := StripAll(columns);
      forall name: string
        ensures HasColumn(Contents(), name) <==>
          exists i :: 0 <= i < |old(columns)| && Trim(old(columns)[i]) == name
      {
        StrippedHeaderFound(old(columns), name);
      }
    }
  }
}
