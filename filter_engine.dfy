/**
 * Resolution of the sidebar selections into filter criteria, and the
 * filtering of the incoming and outgoing ticket frames by those criteria.
 */
module FilterEngine {
  import opened Options
  import opened Text
  import opened Timestamps
  import opened RecordStore

  /** The sentinel option of the customer box and of the waste-type multiselect. */
  const All: string := "All"

  /** `r` is `s` with some elements left out and the rest in their original order. */
  predicate IsSubsequence<T(==)>(r: seq<T>, s: seq<T>)
    decreases |s|
  {
    || r == []
    || (s != [] && ((r[0] == s[0] && IsSubsequence(r[1..], s[1..])) || IsSubsequence(r, s[1..])))
  }

  /** The number of elements of `s` that satisfy `p`. */
  function CountWhere<T>(s: seq<T>, p: T -> bool): nat {
    if s == [] then 0 else (if p(s[0]) then 1 else 0) + CountWhere(s[1..], p)
  }

  /**
   * A boolean-mask selection `df[mask]`: the rows satisfying `p`, all of
   * them, in their original order.
   */
  function Filter<T(==)>(s: seq<T>, p: T -> bool): (r: seq<T>)
    ensures IsSubsequence(r, s)
    ensures forall i :: 0 <= i < |r| ==> p(r[i])
    ensures forall i :: 0 <= i < |s| && p(s[i]) ==> s[i] in r
    ensures |r| == CountWhere(s, p)
  {
    if s == [] then []
    else
      var rest := Filter(s[1..], p);
      assert forall i :: 1 <= i < |s| ==> s[i] == s[1..][i - 1];
      if p(s[0]) then [s[0]] + rest else rest
  }

  /** The conjunction `mask1 & mask2` of two row tests. */
  function Both<T>(p: T -> bool, q: T -> bool): T -> bool {
    x => p(x) && q(x)
  }

  /** Filtering depends only on which rows the test accepts. */
  lemma {:induction false} FilterExtensional<T>(s: seq<T>, p: T -> bool, q: T -> bool)
    requires forall x :: p(x) == q(x)
    ensures Filter(s, p) == Filter(s, q)
  {
    if s != [] {
      FilterExtensional(s[1..], p, q);
    }
  }

  /** Filtering by one test and then another is filtering by their conjunction. */
  lemma {:induction false} FilterFilter<T>(s: seq<T>, p: T -> bool, q: T -> bool)
    ensures Filter(Filter(s, p), q) == Filter(s, Both(p, q))
  {
    if s != [] {
      FilterFilter(s[1..], p, q);
      if p(s[0]) {
        assert Filter(s, p) == [s[0]] + Filter(s[1..], p);
        assert Filter(s, p)[1..] == Filter(s[1..], p);
      }
    }
  }

  /** The order in which two tests are applied does not change the result. */
  lemma FilterCommutes<T>(s: seq<T>, p: T -> bool, q: T -> bool)
    ensures Filter(Filter(s, p), q) == Filter(Filter(s, q), p)
  {
    FilterFilter(s, p, q);
    FilterFilter(s, q, p);
    FilterExtensional(s, Both(p, q), Both(q, p));
  }

  /** Filtering distributes over concatenation. */
  lemma {:induction false} FilterAppend<T>(a: seq<T>, b: seq<T>, p: T -> bool)
    ensures Filter(a + b, p) == Filter(a, p) + Filter(b, p)
  {
    if a != [] {
      FilterAppend(a[1..], b, p);
      assert (a + b)[1..] == a[1..] + b;
    } else {
      assert a + b == b;
    }
  }

  /** The resolved date bounds; `Undefined` is pandas' NaT, against which every comparison is false. */
  datatype Bounds = Between(start: Timestamp, end: Timestamp) | Undefined

  /** `Series.between(start, end)`: inclusive at both ends. */
  predicate InRange(t: Timestamp, b: Bounds) {
    b.Between? && NotAfter(b.start, t) && NotAfter(t, b.end)
  }

  /** The `Ticket Date` column. */
  function TicketDates(rows: seq<Record>): (ts: seq<Timestamp>)
    ensures |ts| == |rows| && forall i :: 0 <= i < |rows| ==> ts[i] == rows[i].ticketDate
  {
    seq(|rows|, i requires 0 <= i < |rows| => rows[i].ticketDate)
  }

  /** `Series.min()` of a non-empty timestamp column. */
  function Earliest(ts: seq<Timestamp>): (m: Timestamp)
    requires ts != []
    ensures m in ts && forall i :: 0 <= i < |ts| ==> NotAfter(m, ts[i])
  {
    if |ts| == 1 then ts[0]
    else
      var rest := Earliest(ts[1..]);
      assert forall i :: 1 <= i < |ts| ==> ts[i] == ts[1..][i - 1];
      if NotAfter(ts[0], rest) then ts[0] else rest
  }

  /** `Series.max()` of a non-empty timestamp column. */
  function Latest(ts: seq<Timestamp>): (m: Timestamp)
    requires ts != []
    ensures m in ts && forall i :: 0 <= i < |ts| ==> NotAfter(ts[i], m)
  {
    if |ts| == 1 then ts[0]
    else
      var rest := Latest(ts[1..]);
      assert forall i :: 1 <= i < |ts| ==> ts[i] == ts[1..][i - 1];
      if NotAfter(rest, ts[0]) then ts[0] else rest
  }

  /**
   * The date bounds: a complete two-date selection gives its two dates at
   * midnight; anything else falls back to the earliest and latest incoming
   * ticket timestamps (NaT when there are no incoming tickets).
   */
  function ResolveBounds(range: seq<Date>, incoming: seq<Record>): (b: Bounds)
    ensures |range| == 2 ==> b == Between(Midnight(range[0]), Midnight(range[1]))
    ensures |range| != 2 ==> (b.Between? <==> incoming != [])
    ensures |range| != 2 ==> forall i :: 0 <= i < |incoming| ==> InRange(incoming[i].ticketDate, b)
    ensures |range| != 2 && b.Between? ==>
      b.start in TicketDates(incoming) && b.end in TicketDates(incoming)
  {
    if |range| == 2 then Between(Midnight(range[0]), Midnight(range[1]))
    else if incoming == [] then Undefined
    else Between(Earliest(TicketDates(incoming)), Latest(TicketDates(incoming)))
  }

  /** `Waste Type ID` as stripped text, row by row. */
  function StrippedWasteTypes(rows: seq<Record>): (w: seq<string>)
    ensures |w| == |rows| && forall i :: 0 <= i < |rows| ==> w[i] == Trim(rows[i].wasteType)
  {
    seq(|rows|, i requires 0 <= i < |rows| => Trim(rows[i].wasteType))
  }

  /** The waste-type options: the distinct stripped incoming waste types, in order of first appearance. */
  function WasteTypeOptions(incoming: seq<Record>): (opts: seq<string>)
    ensures Distinct(opts)
    ensures forall i :: 0 <= i < |incoming| ==> Trim(incoming[i].wasteType) in opts
    ensures forall w :: w in opts ==> exists i :: 0 <= i < |incoming| && Trim(incoming[i].wasteType) == w
  {
    var stripped := StrippedWasteTypes(incoming);
    var opts := Unique(stripped);
    forall w | w in opts
      ensures exists i :: 0 <= i < |incoming| && Trim(incoming[i].wasteType) == w
    {
      var m :| 0 <= m < |opts| && opts[m] == w;
      assert w in stripped;
      var i :| 0 <= i < |stripped| && stripped[i] == w;
      assert Trim(incoming[i].wasteType) == w;
    }
    opts
  }

  /** A selection containing "All" stands for every option; otherwise it is taken as it is. */
  function ResolveWasteTypes(selected: seq<string>, options: seq<string>): seq<string> {
    if All in selected then options else selected
  }

  /** The sidebar's outputs: the date picker's dates, the customer box, the waste-type multiselect. */
  datatype Selection = Selection(dateRange: seq<Date>, customer: string, wasteTypes: seq<string>)

  /** The resolved filter: date bounds, accepted stripped waste types, customer or "All". */
  datatype Criteria = Criteria(bounds: Bounds, wasteTypes: seq<string>, customer: string)

  /** Both the date bounds and the waste-type set come from the incoming frame. */
  function Resolve(sel: Selection, incoming: Frame): Criteria {
    Criteria(
      ResolveBounds(sel.dateRange, incoming.rows),
      ResolveWasteTypes(sel.wasteTypes, WasteTypeOptions(incoming.rows)),
      sel.customer)
  }

  /** The first mask: ticket date in range and stripped waste type selected. */
  function DateAndType(c: Criteria): Record -> bool {
    (r: Record) => InRange(r.ticketDate, c.bounds) && Trim(r.wasteType) in c.wasteTypes
  }

  /** The second mask, applied only when a customer is chosen: exact name match. */
  function CustomerIs(name: string): Record -> bool {
    (r: Record) => r.customer == name
  }

  /** The customer test as a condition on every row: "All" accepts any customer. */
  function CustomerTest(c: Criteria): Record -> bool {
    (r: Record) => c.customer == All || r.customer == c.customer
  }

  /** The three tests combined with AND. */
  function Matches(c: Criteria): Record -> bool {
    Both(DateAndType(c), CustomerTest(c))
  }

  /** Filters one frame the way the dashboard does: date and type first, then the customer if one is chosen. */
  function ApplyCriteria(f: Frame, c: Criteria): (g: Frame)
    ensures g.columns == f.columns
    ensures IsSubsequence(g.rows, f.rows)
    ensures forall i :: 0 <= i < |g.rows| ==> DateAndType(c)(g.rows[i])
    ensures c.customer != All ==> forall i :: 0 <= i < |g.rows| ==> g.rows[i].customer == c.customer
    ensures c.customer == All ==> g.rows == Filter(f.rows, DateAndType(c))
  {
    var stage := Filter(f.rows, DateAndType(c));
    if c.customer != All then
      FilterFilter(f.rows, DateAndType(c), CustomerIs(c.customer));
      Frame(f.columns, Filter(stage, CustomerIs(c.customer)))
    else Frame(f.columns, stage)
  }


  /**
   * The filtered frame is exactly the subsequence of rows passing all three
   * tests: it equals one conjunctive filter, whatever the customer.
   */
  lemma ApplyCriteriaIsConjunction(f: Frame, c: Criteria)
    ensures ApplyCriteria(f, c).rows == Filter(f.rows, Matches(c))
  {
    if c.customer == All {
      FilterExtensional(f.rows, DateAndType(c), Matches(c));
    } else {
      FilterFilter(f.rows, DateAndType(c), CustomerIs(c.customer));
      FilterExtensional(f.rows, Both(DateAndType(c), CustomerIs(c.customer)), Matches(c));
    }
  }

  /** The filtered incoming frame: its columns, and exactly the rows passing all three tests. */
  function FilterIncoming(incoming: Frame, sel: Selection): (g: Frame)
    ensures g.columns == incoming.columns
    ensures g.rows == Filter(incoming.rows, Matches(Resolve(sel, incoming)))
  {
    ApplyCriteriaIsConjunction(incoming, Resolve(sel, incoming));
    ApplyCriteria(incoming, Resolve(sel, incoming))
  }

  /**
   * The filtered outgoing frame: its columns, and exactly the rows passing
   * the same three tests, whose bounds and options come from the incoming
   * frame.
   */
  function FilterOutgoing(incoming: Frame, outgoing: Frame, sel: Selection): (g: Frame)
    ensures g.columns == outgoing.columns
    ensures g.rows == Filter(outgoing.rows, Matches(Resolve(sel, incoming)))
  {
    ApplyCriteriaIsConjunction(outgoing, Resolve(sel, incoming));
    ApplyCriteria(outgoing, Resolve(sel, incoming))
  }

  /**
   * Without "All" in the multiselect, every kept row, incoming or outgoing,
   * has a stripped waste type the user selected.
   */
  lemma SelectedWasteTypesOnly(incoming: Frame, outgoing: Frame, sel: Selection)
    requires All !in sel.wasteTypes
    ensures forall r :: r in FilterIncoming(incoming, sel).rows ==> Trim(r.wasteType) in sel.wasteTypes
    ensures forall r :: r in FilterOutgoing(incoming, outgoing, sel).rows ==> Trim(r.wasteType) in sel.wasteTypes
  {
    var c := Resolve(sel, incoming);
    forall r | r in FilterIncoming(incoming, sel).rows
      ensures Trim(r.wasteType) in sel.wasteTypes
    {
      assert Matches(c)(r);
    }
    forall r | r in FilterOutgoing(incoming, outgoing, sel).rows
      ensures Trim(r.wasteType) in sel.wasteTypes
    {
      assert Matches(c)(r);
    }
  }

  /** Applying the customer test before the date and type tests gives the same rows. */
  lemma CustomerTestFirst(f: Frame, c: Criteria)
    ensures Filter(Filter(f.rows, CustomerTest(c)), DateAndType(c)) == ApplyCriteria(f, c).rows
  {
    FilterFilter(f.rows, CustomerTest(c), DateAndType(c));
    FilterExtensional(f.rows, Both(CustomerTest(c), DateAndType(c)), Matches(c));
    ApplyCriteriaIsConjunction(f, c);
  }

  /** Filtering an already filtered frame with the same criteria changes nothing. */
  lemma ApplyCriteriaIdempotent(f: Frame, c: Criteria)
    ensures ApplyCriteria(ApplyCriteria(f, c), c) == ApplyCriteria(f, c)
  {
    var g := ApplyCriteria(f, c);
    ApplyCriteriaIsConjunction(f, c);
    ApplyCriteriaIsConjunction(g, c);
    FilterFilter(f.rows, Matches(c), Matches(c));
    FilterExtensional(f.rows, Both(Matches(c), Matches(c)), Matches(c));
  }

  /** With "All" selected, every incoming row passes the waste-type test. */
  lemma AllWasteTypesKeepEveryIncomingType(incoming: Frame, sel: Selection)
    requires All in sel.wasteTypes
    ensures forall i :: 0 <= i < |incoming.rows| ==>
      Trim(incoming.rows[i].wasteType) in Resolve(sel, incoming).wasteTypes
  {
  }

  /**
   * Under "All", an outgoing row survives only if its stripped waste type
   * occurs among the incoming rows: outgoing-only types are always dropped.
   */
  lemma OutgoingTypesComeFromIncoming(incoming: Frame, outgoing: Frame, sel: Selection)
    requires All in sel.wasteTypes
    ensures forall o :: o in FilterOutgoing(incoming, outgoing, sel).rows ==>
      exists i :: 0 <= i < |incoming.rows| && Trim(incoming.rows[i].wasteType) == Trim(o.wasteType)
  {
    var c := Resolve(sel, incoming);
    var opts := WasteTypeOptions(incoming.rows);
    assert c.wasteTypes == opts;
    var g := FilterOutgoing(incoming, outgoing, sel);
    forall o | o in g.rows
      ensures exists i :: 0 <= i < |incoming.rows| && Trim(incoming.rows[i].wasteType) == Trim(o.wasteType)
    {
      assert Matches(c)(o);
      assert Trim(o.wasteType) in opts;
    }
  }

  /**
   * With no complete date range, every waste type and every customer, the
   * incoming frame comes through unfiltered.
   */
  lemma NoSelectionKeepsIncoming(incoming: Frame, sel: Selection)
    requires |sel.dateRange| != 2 && All in sel.wasteTypes && sel.customer == All
    ensures FilterIncoming(incoming, sel) == incoming
  {
    var c := Resolve(sel, incoming);
    FilterAllKept(incoming.rows, DateAndType(c));
  }

  /** A test that accepts every row keeps the whole sequence. */
  lemma {:induction false} FilterAllKept<T>(s: seq<T>, p: T -> bool)
    requires forall i :: 0 <= i < |s| ==> p(s[i])
    ensures Filter(s, p) == s
  {
    if s != [] {
      FilterAllKept(s[1..], p);
    }
  }
}
