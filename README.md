# Waste dashboard filter-and-aggregate engine

A Dafny model of the computational core of the material management dashboard
(`idiots.py`). The dashboard loads two ticket sheets, "INCOMING MASTER" and
"OUTGOING MASTER". It filters both by a date range, a set of waste types and a
customer. From the filtered frames it computes KPI totals, the series behind
its charts, and a two-sheet Excel export. The model covers that engine. The
Streamlit widgets are plain inputs (a `Selection`), and the Plotly charts are
the data fed to them (`Panel` values).

Modules, leaves first:

- `Options` (`options.dfy`): `Option` (a NaN cell, a NaT timestamp) and `Result` (a raised `KeyError`).
- `Sorting` (`sorting.dfy`): an insertion sort on a key, standing for the key order in which pandas' `groupby` returns its groups.
- `Text` (`text.dfy`): Python's `str.strip()` over the exact set of characters `str.isspace()` accepts, pandas' `unique()`, and Python's string order (code point by code point).
- `Timestamps` (`timestamps.dfy`): pandas timestamps as a date plus nanoseconds of the day, their chronological order, and `str(date)` in ISO form with a parser that reads it back.
- `RecordStore` (`record_store.dfy`): ticket rows, frames with their column headers, and a `Sheet` class whose `StripColumnNames` rewrites the headers in place, as the load step does.
- `FilterEngine` (`filter_engine.dfy`): resolution of the selection ("All" waste types, the fallback date range) and the boolean-mask filtering of both frames.
- `Aggregation` (`aggregation.dfy`): KPI sums and means with their missing-column fallbacks, group-by sums in key order, origin tagging and concatenation.
- `Export` (`export.dfy`): the report file name and the two-sheet workbook.
- `Dashboard` (`dashboard.dfy`): chart panels with their placeholders, and one full recomputation in two versions. `EvaluateAsWritten` is the page as written: it raises `KeyError('Grade')` where the script does, and nests the trend charts under the grade section. `Evaluate` is the corrected page of the two findings below. Both take frames whose headers are already stripped. `Run` is the whole script on two `Sheet` objects: it strips their headers in place, then evaluates the page as written.

Points where the code behaves differently from what its labels suggest; the model follows the code:

- The "Cost per Tonne" KPI is the unweighted mean of the per-row `Cost Per Tonne` column. It is not the total cost divided by the total net weight, and the two differ as soon as tickets of different weights have different prices (`Dashboard.AvgCostPerTonneIsUnweighted`). The per-row column is read as stored; no load step derives it. The "Cost per Tonne Trend" is likewise the plain mean of the stored `Cost Per Tonne` cells of each ticket timestamp, not that timestamp's cost divided by its weight (`Aggregation.DailyCostPerTonne`).
- The date test compares full timestamps with midnight bounds. A ticket stamped later than midnight on the end date is outside the range. So two adjacent picked ranges, such as 1-2 January and 3-3 January, do not make up the range 1-3 January: a ticket at 14:00 on 2 January is in the latter and in neither of the former (`Aggregation.AdjacentPickedRangesMissTickets`). The weight of a range splits exactly only into a closed part and a half-open part (`Aggregation.DateRangeSplit`).
- `groupby` returns its groups sorted by key: waste types and grades in Python string order, ticket timestamps in time order. The rows handed to `px.bar`, `px.pie` and `px.line` come in that order, and `px.line` joins the points in it. Plotly then reorders what is drawn: pie sectors go from largest to smallest value, and the bars of both origins share one category axis ordered by first appearance, incoming rows first.
- `groupby("Waste Type ID")` groups on the cell as stored. Only the filter compares stripped waste types.
- No price-status filter and no schema check at load exist in this file.

## Model

| member | source | states |
|---|---|---|
| `Text.TrimShape` | idiots.py:43 | stripping removes only whitespace, only from the two ends, and leaves none at either end |
| `Text.TrimIdempotent` | idiots.py:43 | stripping a stripped string changes nothing |
| `Text.Unique` | idiots.py:43 | `unique()` keeps every value of the input, adds none, and lists each once |
| `Text.TextNotAfterIsTotalOrder` | idiots.py:101 | the string order by which waste types and grades are grouped is reflexive, total, antisymmetric and transitive |
| `Sorting.SortByPermutes` | idiots.py:101 | ordering the groups by key keeps every group as often as it occurs and adds none |
| `Sorting.SortByMembers` | idiots.py:101 | every element of the ordered sequence comes from the input, and every input element is in it |
| `Sorting.SortBySorted` | idiots.py:101 | under a total order on keys the result is in key order |
| `Sorting.SortByKeysDistinct` | idiots.py:101 | ordering cannot bring two elements with the same key together |
| `Sorting.SortByKeepsProperty` | idiots.py:189 | what holds of every input element holds of every element of the ordered sequence |
| `Timestamps.Midnight` | idiots.py:57 | a picked date becomes its midnight, the earliest timestamp of that day |
| `Timestamps.NotAfterIsTotalOrder` | idiots.py:59-62 | the timestamp order behind `min`, `max`, `between` and the date grouping is reflexive, total, antisymmetric and transitive |
| `Timestamps.PaddedRoundTrip` | idiots.py:218 | a zero-padded decimal field reads back as the number it was written from |
| `Timestamps.IsoDateRoundTrip` | idiots.py:218 | the ISO text of a date parses back to that date |
| `Timestamps.IsoDateInjective` | idiots.py:218 | two dates have the same ISO text exactly when they are equal |
| `RecordStore.StrippedHeaderFound` | idiots.py:17-18 | after stripping the headers, a column name is found exactly when some raw header strips to it |
| `RecordStore.StripAllIdempotent` | idiots.py:17-18 | stripping the headers a second time changes nothing |
| `RecordStore.Sheet.StripColumnNames` | idiots.py:17-18 | the headers are replaced in place by their stripped forms, rows untouched, and column lookups then match stripped names |
| `FilterEngine.Filter` | idiots.py:61-64 | a mask selection keeps every row passing the test and only those, in original order, as many as pass |
| `FilterEngine.FilterFilter` | idiots.py:70-72 | filtering the filtered frame by a second mask equals filtering once by the AND of both |
| `FilterEngine.FilterCommutes` | idiots.py:61-72 | the order in which two masks are applied does not change the rows |
| `FilterEngine.Earliest` | idiots.py:59 | `min()` of the ticket dates is one of them and not after any of them |
| `FilterEngine.Latest` | idiots.py:59 | `max()` of the ticket dates is one of them and not before any of them |
| `FilterEngine.ResolveBounds` | idiots.py:56-59 | two picked dates give midnight bounds; otherwise the bounds are the earliest and latest incoming tickets, every incoming ticket is in range, and with no incoming tickets the bounds are NaT |
| `FilterEngine.WasteTypeOptions` | idiots.py:43 | the options are exactly the stripped incoming waste types, each once |
| `FilterEngine.ApplyCriteria` | idiots.py:61-72 | the filtered frame keeps its columns, is a subsequence of the rows, passes date and type, and when a customer is chosen holds only that customer |
| `FilterEngine.ApplyCriteriaIsConjunction` | idiots.py:61-72 | the two-stage filter equals one filter by date AND type AND customer, for the chosen customer or "All" |
| `FilterEngine.FilterIncoming` | idiots.py:61-64 | `filtered_incoming` keeps the incoming columns and exactly the incoming rows passing date, waste type and customer |
| `FilterEngine.FilterOutgoing` | idiots.py:65-72 | `filtered_outgoing` keeps the outgoing columns and exactly the outgoing rows passing the same tests, with bounds and "All" options taken from the incoming sheet |
| `FilterEngine.CustomerTestFirst` | idiots.py:70-72 | applying the customer test before the date and type tests gives the same rows |
| `FilterEngine.ApplyCriteriaIdempotent` | idiots.py:61-72 | filtering an already filtered frame by the same criteria changes nothing |
| `FilterEngine.AllWasteTypesKeepEveryIncomingType` | idiots.py:43-52 | `ResolveWasteTypes` with "All" selected accepts every incoming waste type, so no incoming row fails the waste-type test |
| `FilterEngine.SelectedWasteTypesOnly` | idiots.py:51-52 | `ResolveWasteTypes` without "All" keeps the multiselect as it is, so every kept incoming and outgoing row has a selected waste type |
| `FilterEngine.OutgoingTypesComeFromIncoming` | idiots.py:65-68 | under "All", every kept outgoing row has a stripped waste type that occurs among the incoming rows |
| `FilterEngine.NoSelectionKeepsIncoming` | idiots.py:51-72 | no complete date range, "All" types and "All" customers leave the incoming frame unfiltered |
| `Aggregation.TotalWeightAppend` | idiots.py:75-76 | the `TotalWeight` of two row lists together is the sum of their totals |
| `Aggregation.WeightPartition` | idiots.py:75-76 | the rows a test keeps and the rows it drops together carry the whole `TotalWeight` |
| `Aggregation.DateRangeSplit` | idiots.py:61-75 | splitting the date range at a point into a closed part up to it and a half-open part after it splits the incoming total into the totals of the two parts |
| `Aggregation.AdjacentPickedRangesMissTickets` | idiots.py:56-62 | with midnight bounds, a ticket at 14:00 on 2 January 2024 counts in the range 1-3 January and in neither 1-2 January nor 3-3 January |
| `Aggregation.Mean` | idiots.py:78 | the mean skips NaN, is NaN (None) when nothing is present, and times the count of values equals their sum |
| `Aggregation.CostOfIsColumnSum` | idiots.py:77 | the cost total is the sum of the `Cost` column with NaN cells skipped |
| `Aggregation.TotalCost` | idiots.py:77 | `total_cost` is the `Cost` column sum when the column exists and 0 otherwise |
| `Aggregation.CostPartition` | idiots.py:77 | the rows a test keeps and the rows it drops together carry the whole cost |
| `Aggregation.AvgCostPerTonne` | idiots.py:78 | `avg_cost_tn` is 0 without a `Cost Per Tonne` column; with one it is NaN exactly when every cell is NaN, else mean times count equals sum |
| `Aggregation.AddToGroupKeys` | idiots.py:101 | adding a row to the groups keeps the keys and their order and appends a new key at the end |
| `Aggregation.AddToGroupSum` | idiots.py:101 | adding a row's weight to the groups adds it to their grand total |
| `Aggregation.AddToGroupWeights` | idiots.py:101 | only the group of the row's key grows, by exactly the row's weight |
| `Aggregation.GroupSumsDistinct` | idiots.py:101 | `GroupSums` has no key with two groups |
| `Aggregation.GroupSumsCoverRows` | idiots.py:101 | `GroupSums` has a group for every key carried by a row |
| `Aggregation.GroupSumsKeysFromRows` | idiots.py:101 | every key of `GroupSums` is carried by some row |
| `Aggregation.GroupSumsWeights` | idiots.py:101 | each group of `GroupSums` holds the weight of exactly the rows with its key |
| `Aggregation.GroupSumsConserveWeight` | idiots.py:131 | the groups of `GroupSums` add up to the weight of the rows with a key, NaN grades dropped |
| `Aggregation.GroupSumsAddUpToTotal` | idiots.py:101-105 | for a key every row has, the groups add up to the frame's total weight |
| `Aggregation.SortGroups` | idiots.py:101 | ordering groups by key keeps their keys, their distinctness, their members and their total, and puts them in key order |
| `Aggregation.SortedGroupSums` | idiots.py:101-103 | `groupby(key)[weight].sum()`: one group per key some row carries and no other, each holding the weight of exactly the rows with its key, adding up to the weight of the rows with a key, in key order |
| `Aggregation.CombinedKeepsOriginsApart` | idiots.py:101-105 | after tagging and concatenation, the Incoming trace is exactly the incoming groups and the Outgoing trace exactly the outgoing groups |
| `Aggregation.TraceSums` | idiots.py:164-170 | with a key every row carries, each trace of a combined series adds up to its own frame's total weight |
| `Aggregation.SeriesAddUpToKpis` | idiots.py:164-170 | each trace of the waste-type and trend series adds up to its own frame's KPI total |
| `Aggregation.NotAfterIsTotal` | idiots.py:164 | any two timestamps are ordered one way or the other |
| `Aggregation.TextNotAfterIsTotal` | idiots.py:101 | any two strings are ordered one way or the other |
| `Aggregation.TrendTracesInDateOrder` | idiots.py:164-172 | each trend trace runs strictly forward in time, one point per timestamp, the order in which the line joins them |
| `Aggregation.CategoriesInKeyOrder` | idiots.py:101-148 | the waste-type rows of each origin handed to `px.bar`, and each frame's grade rows handed to `px.pie`, are in string order of their keys |
| `Aggregation.DailyCostPerTonne` | idiots.py:189 | one point per distinct ticket timestamp and no other, in time order, each holding the mean cost per tonne of that timestamp's rows |
| `Export.ExportFileName` | idiots.py:218-219 | the name starts with `Waste_Report_` and ends with `.xlsx` |
| `Export.ExportFileNameRoundTrip` | idiots.py:218-219 | the two ISO dates can be read back out of the file name; a NaT name carries none |
| `Export.ExportFileNameIdentifiesDates` | idiots.py:218-219 | two exports have the same file name exactly when their bounds have the same two dates |
| `Export.ExportReport` | idiots.py:215-231 | the "Incoming" and "Outgoing" sheets read back as the filtered frames unchanged, the file name gives back the bound dates, and the MIME type is the spreadsheet type |
| `Dashboard.ComputeKpis` | idiots.py:75-78 | the two weight KPIs are the frames' total weights; total cost is the `Cost` column sum or 0 without the column; the average is the unweighted `Cost Per Tonne` mean, NaN exactly when no such cell is present, and 0 without the column |
| `Dashboard.GroupsOfRows` | idiots.py:100-119 | a frame has groups exactly when it has rows |
| `Dashboard.WasteTypePanel` | idiots.py:100-119 | the waste-type bars are drawn exactly when the series has points, else the placeholder |
| `Dashboard.GradeSectionAsWritten` | idiots.py:122-148 | the section as written is hidden exactly when no frame has both rows and a `Grade` column, and the only error it raises is `KeyError('Grade')` |
| `Dashboard.GradeSectionRaises` | idiots.py:122-131 | the grade section as written raises `KeyError` exactly when it is shown and a frame with rows lacks a `Grade` column |
| `Dashboard.GradeSectionRaisesExample` | idiots.py:128-131 | incoming rows without grades beside graded outgoing rows raise `KeyError('Grade')` |
| `Dashboard.GradePanel` | idiots.py:128-142 | a grade pie is drawn exactly when its own frame has rows and a `Grade` column, from that frame's grade groups |
| `Dashboard.GradeSection` | idiots.py:122-159 | the section is shown under the source's condition, each pie guarded by its own frame |
| `Dashboard.GradeSectionCorrected` | idiots.py:122-159 | wherever the code as written does not raise, the guarded section shows the same pies, and each pie sums only its own frame's graded weight |
| `Dashboard.TrendPanelAsWritten` | idiots.py:161-184 | as written, the trend panel is lost exactly when the grade section raises, and is present exactly when the grade section is shown, as the trend chart |
| `Dashboard.CostTrendPanelAsWritten` | idiots.py:186-202 | as written, the cost trend panel is lost exactly when the grade section raises, and is present exactly when the grade section is shown, as the cost trend chart |
| `Dashboard.TrendHiddenWithoutGrade` | idiots.py:122-202 | as written, without a `Grade` column neither trend chart is drawn even when there are tickets to plot |
| `Dashboard.TrendPanel` | idiots.py:162-184 | the trend lines are drawn exactly when the trend series has points |
| `Dashboard.CostTrendPanel` | idiots.py:187-202 | the cost trend is drawn exactly when the incoming frame has rows and a `Cost Per Tonne` column, and then has points |
| `Dashboard.AvgCostPerTonneIsUnweighted` | idiots.py:78 | tickets of 10 tn at 10 per tonne and 1 tn at 50 per tonne give a KPI of 30, while total cost over total weight is 150/11 |
| `Dashboard.MixedGradesPie` | idiots.py:131 | 3 tn Non-Ferrous then 5 tn Ferrous give the grade rows handed to `px.pie` as Ferrous 5, Non-Ferrous 3, in key order |
| `Dashboard.GradeIsolationExample` | idiots.py:128-159 | 5 tn Ferrous and 3 tn Non-Ferrous incoming with 2 tn Ferrous outgoing give two separate pies, never summed across origins |
| `Dashboard.EvaluateAsWritten` | idiots.py:61-232 | a run of the page as written raises exactly when its grade section raises; otherwise it shows what the corrected run shows, less both trend charts when the grade section is hidden |
| `Dashboard.Run` | idiots.py:12-232 | the script strips both sheets' headers in place, leaves their rows alone, and then shows what the page as written shows for the stripped sheets |
| `Dashboard.EmptySelectionView` | idiots.py:75-202 | filtered frames with no ticket on either side raise nothing and give zero weights and cost, a NaN average while the `Cost Per Tonne` column exists, the waste-type notice, and no grade section or trend charts |
| `Dashboard.EvaluateIsConsistent` | idiots.py:61-232 | in the corrected run (`Evaluate`) each chart trace adds up to its KPI, and the export holds the frames the KPIs came from |
| `Dashboard.ViewIsConsistent` | idiots.py:75-224 | the same holds for the corrected run and for every run of the page as written that does not raise |

## Left out

- Streamlit page, sidebar, tabs, metrics formatting, footer and the placement of panels in tabs are presentation. The widget outputs are the `Selection` input.
- Plotly figure construction and colours are library calls. Only the data passed to them is modelled.
- `pd.read_excel`, `ExcelWriter`, `BytesIO` and the download button are I/O. The workbook is modelled as its named sheets holding the filtered frames.
- `pd.to_datetime` parsing is library code. Tickets carry already-parsed timestamps.
- What the date widget does when the incoming sheet is empty is Streamlit's behaviour. Only the NaT bounds that the fallback then computes are modelled.
- Missing required columns (`Ticket Date`, `Customer Name`, `Waste Type ID`, `Net Weight (tn)`) raise in pandas. The model assumes they exist.
- NaN in `Net Weight (tn)`, `Customer Name` or `Waste Type ID` cells, and NaT in `Ticket Date` cells, are not modelled. Only `Cost`, `Cost Per Tonne` and `Grade` cells may be NaN. In pandas a blank ticket date fails every `between` test and is skipped by `min` and `max`, so such a ticket is always filtered out; `FilterEngine.ResolveBounds` (every incoming ticket lies within the fallback bounds) and `FilterEngine.NoSelectionKeepsIncoming` hold only for sheets without such cells.
- `astype(str)` on non-text waste-type cells is not modelled. Waste types are text already.
- Day-of-month validity (such as 30 February) is not enforced. Dates come from the parser already valid.
- Floating-point rounding is not modelled. Sums and means are exact `real` arithmetic.
- Aggregation.GroupSums: lists groups in order of first appearance. It is a building block only; every chart uses `SortedGroupSums`, which orders them by key as pandas does.
- Dashboard.EvaluateAsWritten: when the page raises, it returns only the `KeyError`. Streamlit still shows what was drawn before the raise, which the model does not describe: the KPIs, the waste-type chart or its notice, and the incoming grade subheader; when only the outgoing frame lacks `Grade`, also the incoming pie and the outgoing grade subheader.
- Plotly's own ordering and trace styling are not modelled: pie sectors are redrawn from largest to smallest value, and the shared waste-type axis follows first appearance across the incoming and then the outgoing trace. The model fixes the order of the rows handed to Plotly, which is the order in which `px.line` joins its points.
- `Grade` cells are text. A `Grade` column mixing text and numbers, which pandas cannot sort, is not modelled.
- Authentication and a price-status filter do not appear in this file.

## Findings

| source | as written | input that shows it | evidently intended | confidence | as-written member | corrected member |
|---|---|---|---|---|---|---|
| idiots.py:122-148 | the grade section is shown when either frame has rows and a `Grade` column, but each pie groups its own frame by `Grade` whenever that frame has rows | incoming sheet without a `Grade` column, outgoing sheet with one, both with selected rows: `groupby("Grade")` on the incoming frame raises `KeyError` | each pie checks its own frame's `Grade` column and shows the placeholder otherwise | medium, not executed | `Dashboard.GradeSectionAsWritten`, `Dashboard.GradeSectionRaises` | `Dashboard.GradeSection`, `Dashboard.GradeSectionCorrected` |
| idiots.py:122-202 | the trend and cost-trend charts are indented inside the grade section's `if`, so they are drawn only when a `Grade` column is present | both sheets without a `Grade` column and selected tickets: no trend chart at all | the trend charts depend only on the filtered frames, like the waste-type chart | medium, not executed | `Dashboard.TrendPanelAsWritten`, `Dashboard.TrendHiddenWithoutGrade` | `Dashboard.TrendPanel`, `Dashboard.CostTrendPanel` |
