/**
 * One pass of the dashboard: filter both frames, then compute the KPIs,
 * the data behind each chart panel and the export, all from the same
 * filtered frames.
 */
module Dashboard {
  import opened Options
  import opened Text
  import opened Timestamps
  import opened RecordStore
  import opened FilterEngine
  import opened Aggregation
  import opened Export
  import opened Sorting

  /** What a panel shows: the "No data available" notice, or a chart of the given data. */
  datatype Panel<T> = Placeholder | Chart(data: T)

  /** pandas raises `KeyError` for a missing column. */
  datatype KeyError = KeyError(column: string)

  /** The four KPI metrics; `avgCostPerTonne` is None where pandas yields NaN. */
  datatype Kpis = Kpis(incomingTotal: real, outgoingTotal: real, totalCost: real, avgCostPerTonne: Option<real>)

  /**
   * The KPIs of the filtered frames: the weight sums, and the cost metrics
   * with their fallbacks to 0 when the incoming frame lacks the column.
   */
  function ComputeKpis(fin: Frame, fout: Frame): (k: Kpis)
    ensures HasColumn(fin, CostColumn) ==> k.totalCost == SumPresent(Costs(fin.rows))
    ensures !HasColumn(fin, CostColumn) ==> k.totalCost == 0.0
    ensures HasColumn(fin, CostPerTonneColumn) ==> (k.avgCostPerTonne.None? <==> CountPresent(CostsPerTonne(fin.rows)) == 0)
    ensures !HasColumn(fin, CostPerTonneColumn) ==> k.avgCostPerTonne == Some(0.0)
    ensures k.avgCostPerTonne == AvgCostPerTonne(fin)
    ensures k.incomingTotal == TotalWeight(fin.rows)
    ensures k.outgoingTotal == TotalWeight(fout.rows)
  {
    Kpis(TotalWeight(fin.rows), TotalWeight(fout.rows), TotalCost(fin), AvgCostPerTonne(fin))
  }

  /** A frame with rows has at least one group for a key every row carries. */
  lemma GroupsOfRows<K(!new)>(rows: seq<Record>, key: Record -> Option<K>, le: (K, K) -> bool)
    requires forall i :: 0 <= i < |rows| ==> key(rows[i]).Some?
    ensures SortedGroupSums(rows, key, le) == [] <==> rows == []
  {
    if rows != [] {
      assert key(rows[0]).value in GroupKeys(SortedGroupSums(rows, key, le));
    }
  }

  /** The "Net Weight by Waste Type" panel: a chart exactly when there is something to plot. */
  function WasteTypePanel(fin: Frame, fout: Frame): (p: Panel<seq<SeriesPoint<string>>>)
    ensures p.Chart? <==> WasteTypeSeries(fin, fout) != []
    ensures p.Chart? ==> p.data == WasteTypeSeries(fin, fout)
  {
    GroupsOfRows(fin.rows, WasteTypeKey, TextNotAfter);
    GroupsOfRows(fout.rows, WasteTypeKey, TextNotAfter);
    if fin.rows != [] || fout.rows != [] then Chart(WasteTypeSeries(fin, fout)) else Placeholder
  }

  /** The condition guarding the grade pies: some frame has rows and a `Grade` column. */
  predicate GradeSectionShown(fin: Frame, fout: Frame) {
    (fin.rows != [] && HasColumn(fin, GradeColumn)) || (fout.rows != [] && HasColumn(fout, GradeColumn))
  }

  /** One grade pie as written: a frame with rows is grouped by `Grade` whether or not it has that column. */
  function GradePanelAsWritten(f: Frame): Result<Panel<seq<Group<string>>>, KeyError> {
    if f.rows == [] then Ok(Placeholder)
    else if !HasColumn(f, GradeColumn) then Err(KeyError(GradeColumn))
    else Ok(Chart(GradeDistribution(f)))
  }

  /**
   * The grade section as written: None when hidden; the incoming pie is
   * drawn first. The only error it raises is `KeyError('Grade')`.
   */
  function GradeSectionAsWritten(fin: Frame, fout: Frame): (s: Result<Option<(Panel<seq<Group<string>>>, Panel<seq<Group<string>>>)>, KeyError>)
    ensures s.Err? ==> s.error == KeyError(GradeColumn)
    ensures s == Ok(None) <==> !GradeSectionShown(fin, fout)
  {
    if !GradeSectionShown(fin, fout) then Ok(None)
    else match GradePanelAsWritten(fin)
      case Err(e) => Err(e)
      case Ok(pin) =>
        match GradePanelAsWritten(fout)
        case Err(e) => Err(e)
        case Ok(pout) => Ok(Some((pin, pout)))
  }

  /**
   * The grade section raises exactly when it is shown and one of the two
   * frames has rows but no `Grade` column, which happens when only the
   * other sheet has that column.
   */
  lemma GradeSectionRaises(fin: Frame, fout: Frame)
    ensures GradeSectionAsWritten(fin, fout).Err? <==>
      && GradeSectionShown(fin, fout)
      && ((fin.rows != [] && !HasColumn(fin, GradeColumn)) || (fout.rows != [] && !HasColumn(fout, GradeColumn)))
  {
  }

  /** An instance: incoming tickets without grades, outgoing tickets with them. */
  lemma GradeSectionRaisesExample(r: Record)
    ensures GradeSectionAsWritten(Frame([], [r]), Frame([GradeColumn], [r])) == Err(KeyError(GradeColumn))
  {
  }

  /** One grade pie, guarded by its own frame's `Grade` column. */
  function GradePanel(f: Frame): (p: Panel<seq<Group<string>>>)
    ensures p.Chart? <==> f.rows != [] && HasColumn(f, GradeColumn)
    ensures p.Chart? ==> p.data == GradeDistribution(f)
  {
    if f.rows != [] && HasColumn(f, GradeColumn) then Chart(GradeDistribution(f)) else Placeholder
  }

  /** The grade section with each pie guarded by its own frame: it never raises. */
  function GradeSection(fin: Frame, fout: Frame): (s: Option<(Panel<seq<Group<string>>>, Panel<seq<Group<string>>>)>)
    ensures s.Some? <==> GradeSectionShown(fin, fout)
    ensures s.Some? ==> s.value.0 == GradePanel(fin) && s.value.1 == GradePanel(fout)
  {
    if GradeSectionShown(fin, fout) then Some((GradePanel(fin), GradePanel(fout))) else None
  }

  /**
   * Wherever the section as written does not raise, the guarded section
   * shows the same panels; and each pie adds up to the graded weight of its
   * own frame only.
   */
  lemma GradeSectionCorrected(fin: Frame, fout: Frame)
    ensures GradeSectionAsWritten(fin, fout).Ok? ==> GradeSectionAsWritten(fin, fout).value == GradeSection(fin, fout)
    ensures GradePanel(fin).Chart? ==>
      SumGroups(GradePanel(fin).data) == TotalWeight(Filter(fin.rows, HasKey(GradeKey)))
    ensures GradePanel(fout).Chart? ==>
      SumGroups(GradePanel(fout).data) == TotalWeight(Filter(fout.rows, HasKey(GradeKey)))
  {
  }

  /**
   * The trend panel as written: it is never reached when the grade section
   * raises, and it is nested under the grade condition, so it is not drawn
   * (None) when that condition fails.
   */
  function TrendPanelAsWritten(fin: Frame, fout: Frame): (t: Result<Option<Panel<seq<SeriesPoint<Timestamp>>>>, KeyError>)
    ensures t.Err? <==> GradeSectionAsWritten(fin, fout).Err?
    ensures t.Ok? ==> (t.value.Some? <==> GradeSectionShown(fin, fout))
    ensures t.Ok? && t.value.Some? ==> t.value.value == TrendPanel(fin, fout)
  {
    match GradeSectionAsWritten(fin, fout)
    case Err(e) => Err(e)
    case Ok(grades) => Ok(if grades.Some? then Some(TrendPanel(fin, fout)) else None)
  }

  /** The cost trend panel as written: behind the same raise and the same grade condition. */
  function CostTrendPanelAsWritten(fin: Frame, fout: Frame): (t: Result<Option<Panel<seq<DailyMean>>>, KeyError>)
    ensures t.Err? <==> GradeSectionAsWritten(fin, fout).Err?
    ensures t.Ok? ==> (t.value.Some? <==> GradeSectionShown(fin, fout))
    ensures t.Ok? && t.value.Some? ==> t.value.value == CostTrendPanel(fin)
  {
    match GradeSectionAsWritten(fin, fout)
    case Err(e) => Err(e)
    case Ok(grades) => Ok(if grades.Some? then Some(CostTrendPanel(fin)) else None)
  }

  /** Without a `Grade` column neither trend chart is drawn, however many tickets are selected. */
  lemma TrendHiddenWithoutGrade(fin: Frame, fout: Frame)
    requires !HasColumn(fin, GradeColumn) && !HasColumn(fout, GradeColumn)
    ensures TrendPanelAsWritten(fin, fout) == Ok(None)
    ensures CostTrendPanelAsWritten(fin, fout) == Ok(None)
    ensures fin.rows != [] ==> TrendPanel(fin, fout).Chart?
  {
  }

  /** The "Incoming vs Outgoing Trend" panel: a chart exactly when there is something to plot. */
  function TrendPanel(fin: Frame, fout: Frame): (p: Panel<seq<SeriesPoint<Timestamp>>>)
    ensures p.Chart? <==> TrendSeries(fin, fout) != []
    ensures p.Chart? ==> p.data == TrendSeries(fin, fout)
  {
    GroupsOfRows(fin.rows, DateKey, NotAfter);
    GroupsOfRows(fout.rows, DateKey, NotAfter);
    if fin.rows != [] || fout.rows != [] then Chart(TrendSeries(fin, fout)) else Placeholder
  }

  /** The "Cost per Tonne Trend" panel: a chart when the incoming frame has rows and a `Cost Per Tonne` column. */
  function CostTrendPanel(fin: Frame): (p: Panel<seq<DailyMean>>)
    ensures p.Chart? <==> fin.rows != [] && HasColumn(fin, CostPerTonneColumn)
    ensures p.Chart? ==> p.data == DailyCostPerTonne(fin.rows) && p.data != []
  {
    if fin.rows != [] && HasColumn(fin, CostPerTonneColumn) then
      assert fin.rows[0].ticketDate in DatesOf(DailyCostPerTonne(fin.rows));
      Chart(DailyCostPerTonne(fin.rows))
    else Placeholder
  }

  /** A ticket of the given weight, cost, cost per tonne and grade, on the first day of 2024. */
  function Ticket(weight: real, cost: real, perTonne: real, grade: string): Record {
    Record(Midnight(Date(2024, 1, 1)), "Customer", "Metal", weight, Some(cost), Some(perTonne), Some(grade))
  }

  /**
   * The cost-per-tonne KPI is the plain mean of the `Cost Per Tonne`
   * column: for tickets of 10 tn costing 100 and of 1 tn costing 50 it is
   * 30, while total cost over total weight is 150/11.
   */
  lemma AvgCostPerTonneIsUnweighted()
    ensures var f := Frame([CostColumn, CostPerTonneColumn], [Ticket(10.0, 100.0, 10.0, "Ferrous"), Ticket(1.0, 50.0, 50.0, "Ferrous")]);
      && AvgCostPerTonne(f) == Some(30.0)
      && ComputeKpis(f, f).totalCost / ComputeKpis(f, f).incomingTotal == 150.0 / 11.0
  {
    var rows := [Ticket(10.0, 100.0, 10.0, "Ferrous"), Ticket(1.0, 50.0, 50.0, "Ferrous")];
    var vals := CostsPerTonne(rows);
    assert vals == [Some(10.0), Some(50.0)];
    assert vals[1..] == [Some(50.0)];
    assert Costs(rows) == [Some(100.0), Some(50.0)];
    assert Costs(rows)[1..] == [Some(50.0)];
    assert rows[1..] == [rows[1]];
    var f := Frame([CostColumn, CostPerTonneColumn], rows);
    assert HasColumn(f, CostPerTonneColumn) && HasColumn(f, CostColumn);
    assert [Some(50.0)][1..] == [];
    assert CountPresent([Some(50.0)]) == 1 && SumPresent([Some(50.0)]) == 50.0;
    assert CountPresent(vals) == 2;
    assert SumPresent(vals) == 60.0;
    assert TotalWeight(rows) == 11.0;
  }

  /** 3 tn Non-Ferrous then 5 tn Ferrous give the Ferrous grade row first, then the Non-Ferrous one. */
  lemma MixedGradesPie(a: Record, b: Record)
    requires a == Ticket(3.0, 0.0, 0.0, "Non-Ferrous") && b == Ticket(5.0, 0.0, 0.0, "Ferrous")
    ensures SortedGroupSums([a, b], GradeKey, TextNotAfter) == [Group("Ferrous", 5.0), Group("Non-Ferrous", 3.0)]
  {
    var ferrous, nonFerrous := Group("Ferrous", 5.0), Group("Non-Ferrous", 3.0);
    assert [a, b][..1] == [a];
    assert GroupSums([a], GradeKey) == [nonFerrous];
    assert "Ferrous" != "Non-Ferrous" by {
      assert |"Ferrous"| != |"Non-Ferrous"|;
    }
    assert GroupSums([a, b], GradeKey) == AddToGroup([nonFerrous], "Ferrous", 5.0) == [nonFerrous, ferrous];
    assert !TextNotAfter("Non-Ferrous", "Ferrous") by {
      assert "Non-Ferrous"[0] == 'N' && "Ferrous"[0] == 'F';
    }
    assert [nonFerrous, ferrous][1..] == [ferrous];
    assert SortBy([ferrous], GroupKey, TextNotAfter) == [ferrous];
    assert InsertBy(nonFerrous, [ferrous], GroupKey, TextNotAfter) == [ferrous, nonFerrous];
  }

  /** A single graded ticket gives the pie one grade row. */
  lemma SingleGradePie(c: Record, grade: string)
    requires c.grade == Some(grade)
    ensures SortedGroupSums([c], GradeKey, TextNotAfter) == [Group(grade, c.netWeight)]
  {
    var g := Group(grade, c.netWeight);
    assert [c][..0] == [];
    assert GroupSums([c], GradeKey) == AddToGroup([], grade, c.netWeight) == [g];
    assert [g][1..] == [];
    assert SortBy([g], GroupKey, TextNotAfter) == InsertBy(g, [], GroupKey, TextNotAfter) == [g];
  }

  /**
   * Grades are distributed per frame and ordered by grade: 3 tn Non-Ferrous
   * then 5 tn Ferrous incoming, and 2 tn Ferrous outgoing, give two
   * separate pies, Ferrous first, and no sum across them.
   */
  lemma GradeIsolationExample()
    ensures var fin := Frame([GradeColumn], [Ticket(3.0, 0.0, 0.0, "Non-Ferrous"), Ticket(5.0, 0.0, 0.0, "Ferrous")]);
      var fout := Frame([GradeColumn], [Ticket(2.0, 0.0, 0.0, "Ferrous")]);
      GradeSection(fin, fout) == Some((Chart([Group("Ferrous", 5.0), Group("Non-Ferrous", 3.0)]), Chart([Group("Ferrous", 2.0)])))
  {
    var a, b, c := Ticket(3.0, 0.0, 0.0, "Non-Ferrous"), Ticket(5.0, 0.0, 0.0, "Ferrous"), Ticket(2.0, 0.0, 0.0, "Ferrous");
    var fin, fout := Frame([GradeColumn], [a, b]), Frame([GradeColumn], [c]);
    MixedGradesPie(a, b);
    SingleGradePie(c, "Ferrous");
    assert HasColumn(fin, GradeColumn) && HasColumn(fout, GradeColumn);
    assert GradePanel(fin) == Chart([Group("Ferrous", 5.0), Group("Non-Ferrous", 3.0)]);
    assert GradePanel(fout) == Chart([Group("Ferrous", 2.0)]);
  }

  /**
   * Everything one run of the page produces. A trend panel is None when the
   * page does not contain it at all.
   */
  datatype View = View(
    incoming: Frame,
    outgoing: Frame,
    kpis: Kpis,
    wasteTypes: Panel<seq<SeriesPoint<string>>>,
    grades: Option<(Panel<seq<Group<string>>>, Panel<seq<Group<string>>>)>,
    trend: Option<Panel<seq<SeriesPoint<Timestamp>>>>,
    costTrend: Option<Panel<seq<DailyMean>>>,
    report: Report)

  /**
   * One run of the corrected page from the loaded frames and the sidebar
   * selection: each grade pie guarded by its own frame, and the trend
   * charts always present.
   */
  function Evaluate(inSheet: Frame, outSheet: Frame, sel: Selection): View {
    var fin := FilterIncoming(inSheet, sel);
    var fout := FilterOutgoing(inSheet, outSheet, sel);
    View(fin, fout, ComputeKpis(fin, fout),
      WasteTypePanel(fin, fout), GradeSection(fin, fout), Some(TrendPanel(fin, fout)), Some(CostTrendPanel(fin)),
      ExportReport(fin, fout, Resolve(sel, inSheet).bounds))
  }

  /**
   * One run of the page as written. It raises exactly when the grade
   * section raises. The page then stops at the first pie whose frame has
   * rows but no `Grade` column: at the incoming pie, after the KPIs and the
   * waste-type chart; or at the outgoing pie, after the incoming pie and the
   * outgoing subheader as well. It then shows no trend chart, no data table
   * and no download. Otherwise it shows what the corrected page shows,
   * except that both trend charts are missing when the grade section is.
   */
  function EvaluateAsWritten(inSheet: Frame, outSheet: Frame, sel: Selection): (v: Result<View, KeyError>)
    ensures var w := Evaluate(inSheet, outSheet, sel);
      && (v.Err? <==> GradeSectionAsWritten(w.incoming, w.outgoing).Err?)
      && (v.Ok? ==> v.value == if w.grades.Some? then w else w.(trend := None, costTrend := None))
  {
    var fin := FilterIncoming(inSheet, sel);
    var fout := FilterOutgoing(inSheet, outSheet, sel);
    match GradeSectionAsWritten(fin, fout)
    case Err(e) => Err(e)
    case Ok(grades) =>
      GradeSectionCorrected(fin, fout);
      Ok(View(fin, fout, ComputeKpis(fin, fout),
        WasteTypePanel(fin, fout), grades, TrendPanelAsWritten(fin, fout).value, CostTrendPanelAsWritten(fin, fout).value,
        ExportReport(fin, fout, Resolve(sel, inSheet).bounds)))
  }

  /**
   * Filtered frames with no ticket on either side give the empty page and
   * raise nothing: zero weights and cost, a NaN average while the incoming
   * frame has the `Cost Per Tonne` column, the waste-type notice, and no
   * grade section, hence no trend charts either.
   */
  lemma EmptySelectionView(fin: Frame, fout: Frame)
    requires fin.rows == [] && fout.rows == []
    ensures var k := ComputeKpis(fin, fout);
      && k.incomingTotal == 0.0 && k.outgoingTotal == 0.0 && k.totalCost == 0.0
      && (HasColumn(fin, CostPerTonneColumn) ==> k.avgCostPerTonne == None)
    ensures WasteTypePanel(fin, fout) == Placeholder
    ensures GradeSectionAsWritten(fin, fout) == Ok(None)
    ensures TrendPanelAsWritten(fin, fout) == Ok(None) && CostTrendPanelAsWritten(fin, fout) == Ok(None)
  {
  }

  /**
   * One run of the script on the two loaded sheets: their headers are
   * stripped in place, then the page is computed from their contents.
   */
  method Run(inSheet: Sheet, outSheet: Sheet, sel: Selection) returns (v: Result<View, KeyError>)
    modifies inSheet, outSheet
    ensures inSheet.columns == StripAll(old(inSheet.columns)) && inSheet.rows == old(inSheet.rows)
    ensures outSheet.columns == StripAll(old(outSheet.columns)) && outSheet.rows == old(outSheet.rows)
    ensures v == EvaluateAsWritten(inSheet.Contents(), outSheet.Contents(), sel)
  {
    inSheet.StripColumnNames();
    outSheet.StripColumnNames();
    if inSheet == outSheet {
      StripAllIdempotent(old(inSheet.columns));
    }
    v := EvaluateAsWritten(inSheet.Contents(), outSheet.Contents(), sel);
  }

  /**
   * The views of one run agree: each chart trace adds up to its own KPI,
   * and the export holds the same filtered frames the KPIs were computed
   * from.
   */
  predicate Consistent(v: View) {
    && (v.wasteTypes.Chart? ==>
        && SumGroups(PointsFrom(v.wasteTypes.data, Incoming)) == v.kpis.incomingTotal
        && SumGroups(PointsFrom(v.wasteTypes.data, Outgoing)) == v.kpis.outgoingTotal)
    && (v.trend.Some? && v.trend.value.Chart? ==>
        && SumGroups(PointsFrom(v.trend.value.data, Incoming)) == v.kpis.incomingTotal
        && SumGroups(PointsFrom(v.trend.value.data, Outgoing)) == v.kpis.outgoingTotal)
    && SheetNamed(v.report.sheets, IncomingSheetName) == Some(v.incoming)
    && SheetNamed(v.report.sheets, OutgoingSheetName) == Some(v.outgoing)
  }

  /** Every run of the corrected page is consistent. */
  lemma EvaluateIsConsistent(inSheet: Frame, outSheet: Frame, sel: Selection)
    ensures Consistent(Evaluate(inSheet, outSheet, sel))
  {
    var v := Evaluate(inSheet, outSheet, sel);
    SeriesAddUpToKpis(v.incoming, v.outgoing);
    AllRowsKeyed(v.incoming.rows, WasteTypeKey);
    AllRowsKeyed(v.outgoing.rows, WasteTypeKey);
  }

  /** Every run of the corrected page is consistent, and so is every run of the page as written that does not raise. */
  lemma ViewIsConsistent(inSheet: Frame, outSheet: Frame, sel: Selection)
    ensures Consistent(Evaluate(inSheet, outSheet, sel))
    ensures EvaluateAsWritten(inSheet, outSheet, sel).Ok? ==> Consistent(EvaluateAsWritten(inSheet, outSheet, sel).value)
  {
    EvaluateIsConsistent(inSheet, outSheet, sel);
    var w := Evaluate(inSheet, outSheet, sel);
    assert Consistent(w.(trend := None, costTrend := None));
  }
}
