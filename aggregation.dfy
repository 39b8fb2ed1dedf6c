/**
 * The numbers the dashboard shows: KPI sums and means over the filtered
 * frames, and the group-by series handed to the charts.
 */
module Aggregation {
  import opened Options
  import opened Text
  import opened Timestamps
  import opened RecordStore
  import opened FilterEngine
  import opened Sorting

  /** `df["Net Weight (tn)"].sum()`; an empty frame sums to 0. */
  function TotalWeight(rows: seq<Record>): real {
    if rows == [] then 0.0 else rows[0].netWeight + TotalWeight(rows[1..])
  }

  lemma {:induction false} TotalWeightAppend(a: seq<Record>, b: seq<Record>)
    ensures TotalWeight(a + b) == TotalWeight(a) + TotalWeight(b)
  {
    if a == [] {
      assert a + b == b;
    } else {
      TotalWeightAppend(a[1..], b);
      assert (a + b)[1..] == a[1..] + b;
    }
  }

  function Not<T>(p: T -> bool): T -> bool {
    x => !p(x)
  }

  /** The weight of the rows a test keeps plus the weight of the rows it drops is the whole weight. */
  lemma {:induction false} WeightPartition(rows: seq<Record>, p: Record -> bool)
    ensures TotalWeight(Filter(rows, p)) + TotalWeight(Filter(rows, Not(p))) == TotalWeight(rows)
  {
    if rows != [] {
      WeightPartition(rows[1..], p);
    }
  }

  /** Rows whose ticket date lies in the inclusive range from `lo` to `hi`. */
  function Within(lo: Timestamp, hi: Timestamp): Record -> bool {
    (r: Record) => InRange(r.ticketDate, Between(lo, hi))
  }

  /** Rows whose ticket date is not after `mid`. */
  function UpTo(mid: Timestamp): Record -> bool {
    (r: Record) => NotAfter(r.ticketDate, mid)
  }

  /** Rows whose ticket date is after `mid` and not after `hi`. */
  function After(mid: Timestamp, hi: Timestamp): Record -> bool {
    (r: Record) => !NotAfter(r.ticketDate, mid) && NotAfter(r.ticketDate, hi)
  }

  lemma SplitParts(lo: Timestamp, mid: Timestamp, hi: Timestamp)
    requires NotAfter(lo, mid) && NotAfter(mid, hi)
    ensures forall r :: Both(Within(lo, hi), UpTo(mid))(r) == Within(lo, mid)(r)
    ensures forall r :: Both(Within(lo, hi), Not(UpTo(mid)))(r) == After(mid, hi)(r)
  {
    forall r: Record
      ensures Both(Within(lo, hi), UpTo(mid))(r) == Within(lo, mid)(r)
      ensures Both(Within(lo, hi), Not(UpTo(mid)))(r) == After(mid, hi)(r)
    {
      NotAfterIsTotalOrder(r.ticketDate, mid, hi);
      NotAfterIsTotalOrder(lo, mid, r.ticketDate);
    }
  }

  /**
   * Splitting a date range at `mid` into the closed range up to `mid` and
   * the half-open range after it splits its total weight: the weight over
   * the whole range is the sum of the weights over the parts.
   */
  lemma DateRangeSplit(rows: seq<Record>, lo: Timestamp, mid: Timestamp, hi: Timestamp)
    requires NotAfter(lo, mid) && NotAfter(mid, hi)
    ensures TotalWeight(Filter(rows, Within(lo, hi)))
         == TotalWeight(Filter(rows, Within(lo, mid))) + TotalWeight(Filter(rows, After(mid, hi)))
  {
    WeightPartition(Filter(rows, Within(lo, hi)), UpTo(mid));
    FilterFilter(rows, Within(lo, hi), UpTo(mid));
    FilterFilter(rows, Within(lo, hi), Not(UpTo(mid)));
    SplitParts(lo, mid, hi);
    FilterExtensional(rows, Both(Within(lo, hi), UpTo(mid)), Within(lo, mid));
    FilterExtensional(rows, Both(Within(lo, hi), Not(UpTo(mid))), After(mid, hi));
  }

  /**
   * Two adjacent ranges picked in the date widget do not make up the range
   * they span: their bounds are midnights, so a ticket stamped 14:00 on
   * 2 January 2024 counts in the range 1-3 January and in neither 1-2
   * January nor 3-3 January.
   */
  lemma AdjacentPickedRangesMissTickets(r: Record)
    requires r.ticketDate == Timestamp(Date(2024, 1, 2), 14 * 3_600_000_000_000)
    ensures var jan1, jan2, jan3 := Midnight(Date(2024, 1, 1)), Midnight(Date(2024, 1, 2)), Midnight(Date(2024, 1, 3));
      && TotalWeight(Filter([r], Within(jan1, jan3))) == r.netWeight
      && TotalWeight(Filter([r], Within(jan1, jan2))) == 0.0
      && TotalWeight(Filter([r], Within(jan3, jan3))) == 0.0
  {
  }

  /** The sum of the values present, skipping NaN as pandas' `sum()` does. */
  function SumPresent(vals: seq<Option<real>>): real {
    if vals == [] then 0.0
    else (if vals[0].Some? then vals[0].value else 0.0) + SumPresent(vals[1..])
  }

  /** The number of values present. */
  function CountPresent(vals: seq<Option<real>>): nat {
    if vals == [] then 0 else (if vals[0].Some? then 1 else 0) + CountPresent(vals[1..])
  }

  /** pandas' `mean()`: NaN skipped; no value at all gives NaN, modelled as None. */
  function Mean(vals: seq<Option<real>>): (m: Option<real>)
    ensures m.None? <==> CountPresent(vals) == 0
    ensures m.Some? ==> m.value * (CountPresent(vals) as real) == SumPresent(vals)
  {
    if CountPresent(vals) == 0 then None
    else Some(SumPresent(vals) / (CountPresent(vals) as real))
  }

  /** The `Cost` column. */
  function Costs(rows: seq<Record>): (c: seq<Option<real>>)
    ensures |c| == |rows|
    ensures forall i :: 0 <= i < |rows| ==> c[i] == rows[i].cost
  {
    seq(|rows|, i requires 0 <= i < |rows| => rows[i].cost)
  }

  /** The `Cost Per Tonne` column. */
  function CostsPerTonne(rows: seq<Record>): (c: seq<Option<real>>)
    ensures |c| == |rows|
    ensures forall i :: 0 <= i < |rows| ==> c[i] == rows[i].costPerTonne
  {
    seq(|rows|, i requires 0 <= i < |rows| => rows[i].costPerTonne)
  }

  /** The cost of the rows, NaN cells skipped. */
  function CostOf(rows: seq<Record>): real {
    if rows == [] then 0.0
    else (if rows[0].cost.Some? then rows[0].cost.value else 0.0) + CostOf(rows[1..])
  }

  /** `CostOf` is the sum of the `Cost` column. */
  lemma {:induction false} CostOfIsColumnSum(rows: seq<Record>)
    ensures CostOf(rows) == SumPresent(Costs(rows))
  {
    if rows != [] {
      CostOfIsColumnSum(rows[1..]);
      assert Costs(rows)[1..] == Costs(rows[1..]);
    }
  }

  /** `total_cost`: the sum of `Cost` when the frame has that column, otherwise 0. */
  function TotalCost(f: Frame): (c: real)
    ensures HasColumn(f, CostColumn) ==> c == SumPresent(Costs(f.rows))
    ensures !HasColumn(f, CostColumn) ==> c == 0.0
  {
    CostOfIsColumnSum(f.rows);
    if HasColumn(f, CostColumn) then CostOf(f.rows) else 0.0
  }

  /** The cost of the rows a test keeps plus the cost of those it drops is the cost of all rows. */
  lemma {:induction false} CostPartition(rows: seq<Record>, p: Record -> bool)
    ensures CostOf(Filter(rows, p)) + CostOf(Filter(rows, Not(p))) == CostOf(rows)
  {
    if rows != [] {
      CostPartition(rows[1..], p);
    }
  }

  /**
   * `avg_cost_tn`: the unweighted mean of the `Cost Per Tonne` column when
   * the frame has one (None where pandas gives NaN), otherwise 0.
   */
  function AvgCostPerTonne(f: Frame): (a: Option<real>)
    ensures !HasColumn(f, CostPerTonneColumn) ==> a == Some(0.0)
    ensures HasColumn(f, CostPerTonneColumn) ==>
      && (a.None? <==> forall i :: 0 <= i < |f.rows| ==> f.rows[i].costPerTonne.None?)
      && (a.Some? ==> a.value * (CountPresent(CostsPerTonne(f.rows)) as real) == SumPresent(CostsPerTonne(f.rows)))
  {
    if HasColumn(f, CostPerTonneColumn) then
      CountPresentZero(CostsPerTonne(f.rows));
      Mean(CostsPerTonne(f.rows))
    else Some(0.0)
  }

  /** No value is present exactly when every cell is NaN. */
  lemma {:induction false} CountPresentZero(vals: seq<Option<real>>)
    ensures CountPresent(vals) == 0 <==> forall i :: 0 <= i < |vals| ==> vals[i].None?
  {
    if vals != [] {
      CountPresentZero(vals[1..]);
      assert forall i :: 1 <= i < |vals| ==> vals[i] == vals[1..][i - 1];
    }
  }

  /** One row of `groupby(key)["Net Weight (tn)"].sum().reset_index()`. */
  datatype Group<K> = Group(key: K, weight: real)

  function GroupKeys<K>(gs: seq<Group<K>>): (ks: seq<K>)
    ensures |ks| == |gs| && forall j :: 0 <= j < |gs| ==> ks[j] == gs[j].key
  {
    if gs == [] then [] else [gs[0].key] + GroupKeys(gs[1..])
  }

  function SumGroups<K>(gs: seq<Group<K>>): real {
    if gs == [] then 0.0 else gs[0].weight + SumGroups(gs[1..])
  }

  /** The rows whose key is `k` (a NaN key matches nothing). */
  function KeyIs<K(==)>(key: Record -> Option<K>, k: K): Record -> bool {
    (r: Record) => key(r) == Some(k)
  }

  /** The rows that have a key at all: pandas' `groupby` drops NaN keys. */
  function HasKey<K>(key: Record -> Option<K>): Record -> bool {
    (r: Record) => key(r).Some?
  }

  /** The reference value of one group: the weight of the rows with that key. */
  function KeyWeight<K(==)>(rows: seq<Record>, key: Record -> Option<K>, k: K): real {
    TotalWeight(Filter(rows, KeyIs(key, k)))
  }

  /** Adds weight `w` to the group of `k`, opening a new last group if `k` has none yet. */
  function AddToGroup<K(==)>(gs: seq<Group<K>>, k: K, w: real): seq<Group<K>> {
    if gs == [] then [Group(k, w)]
    else if gs[0].key == k then [Group(k, gs[0].weight + w)] + gs[1..]
    else [gs[0]] + AddToGroup(gs[1..], k, w)
  }

  /** Adding to a group keeps the keys and their order, appending `k` if it is new. */
  lemma {:induction false} AddToGroupKeys<K>(gs: seq<Group<K>>, k: K, w: real)
    ensures GroupKeys(AddToGroup(gs, k, w)) == if k in GroupKeys(gs) then GroupKeys(gs) else GroupKeys(gs) + [k]
  {
    if gs != [] {
      var r := AddToGroup(gs, k, w);
      assert GroupKeys(gs) == [gs[0].key] + GroupKeys(gs[1..]);
      if gs[0].key == k {
        assert GroupKeys(r) == [k] + GroupKeys(gs[1..]);
      } else {
        AddToGroupKeys(gs[1..], k, w);
        assert r[1..] == AddToGroup(gs[1..], k, w);
        assert GroupKeys(r) == [gs[0].key] + GroupKeys(AddToGroup(gs[1..], k, w));
      }
    }
  }

  /** The groups that were there keep their keys, in place. */
  lemma AddToGroupKeepsKeys<K>(gs: seq<Group<K>>, k: K, w: real)
    ensures |AddToGroup(gs, k, w)| >= |gs|
    ensures forall j :: 0 <= j < |gs| ==> AddToGroup(gs, k, w)[j].key == gs[j].key
  {
    var r := AddToGroup(gs, k, w);
    AddToGroupKeys(gs, k, w);
    forall j | 0 <= j < |gs|
      ensures r[j].key == gs[j].key
    {
      assert r[j].key == GroupKeys(r)[j] == GroupKeys(gs)[j];
    }
  }

  /** Adding `w` to a group adds `w` to the sum of all groups. */
  lemma {:induction false} AddToGroupSum<K>(gs: seq<Group<K>>, k: K, w: real)
    ensures SumGroups(AddToGroup(gs, k, w)) == SumGroups(gs) + w
  {
    if gs != [] && gs[0].key != k {
      AddToGroupSum(gs[1..], k, w);
      assert AddToGroup(gs, k, w)[1..] == AddToGroup(gs[1..], k, w);
    }
  }

  /** With distinct keys, exactly the group of `k` grows by `w`; a new group for `k` holds `w`. */
  lemma {:induction false} AddToGroupWeights<K>(gs: seq<Group<K>>, k: K, w: real)
    requires Distinct(GroupKeys(gs))
    ensures |AddToGroup(gs, k, w)| >= |gs|
    ensures forall j :: 0 <= j < |gs| ==>
      AddToGroup(gs, k, w)[j].weight == gs[j].weight + (if gs[j].key == k then w else 0.0)
    ensures k !in GroupKeys(gs) ==> |AddToGroup(gs, k, w)| == |gs| + 1 && AddToGroup(gs, k, w)[|gs|].weight == w
  {
    if gs != [] {
      if gs[0].key == k {
        AddToFirstGroup(gs, k, w);
      } else {
        assert GroupKeys(gs[1..]) == GroupKeys(gs)[1..];
        AddToGroupWeights(gs[1..], k, w);
        AddToLaterGroup(gs, k, w);
      }
    }
  }

  /** When the first group has key `k`, it alone grows by `w`. */
  lemma AddToFirstGroup<K>(gs: seq<Group<K>>, k: K, w: real)
    requires Distinct(GroupKeys(gs)) && gs != [] && gs[0].key == k
    ensures |AddToGroup(gs, k, w)| == |gs| && k in GroupKeys(gs)
    ensures forall j :: 0 <= j < |gs| ==>
      AddToGroup(gs, k, w)[j].weight == gs[j].weight + (if gs[j].key == k then w else 0.0)
  {
    var r := AddToGroup(gs, k, w);
    var keys := GroupKeys(gs);
    assert r == [Group(k, gs[0].weight + w)] + gs[1..];
    assert keys[0] == k;
    forall j | 1 <= j < |gs|
      ensures r[j] == gs[j] && gs[j].key != k
    {
      assert keys[j] == gs[j].key;
    }
  }

  /** When the first group has another key, the first group stays and the rest grow as `AddToGroup` on them says. */
  lemma AddToLaterGroup<K>(gs: seq<Group<K>>, k: K, w: real)
    requires gs != [] && gs[0].key != k
    requires |AddToGroup(gs[1..], k, w)| >= |gs| - 1
    requires forall j :: 0 <= j < |gs| - 1 ==>
      AddToGroup(gs[1..], k, w)[j].weight == gs[1..][j].weight + (if gs[1..][j].key == k then w else 0.0)
    requires k !in GroupKeys(gs[1..]) ==> |AddToGroup(gs[1..], k, w)| == |gs| && AddToGroup(gs[1..], k, w)[|gs| - 1].weight == w
    ensures |AddToGroup(gs, k, w)| >= |gs|
    ensures forall j :: 0 <= j < |gs| ==>
      AddToGroup(gs, k, w)[j].weight == gs[j].weight + (if gs[j].key == k then w else 0.0)
    ensures k !in GroupKeys(gs) ==> |AddToGroup(gs, k, w)| == |gs| + 1 && AddToGroup(gs, k, w)[|gs|].weight == w
  {
    var r := AddToGroup(gs, k, w);
    var rest := AddToGroup(gs[1..], k, w);
    assert r == [gs[0]] + rest;
    assert GroupKeys(gs) == [gs[0].key] + GroupKeys(gs[1..]);
    forall j | 1 <= j < |gs|
      ensures r[j].weight == gs[j].weight + (if gs[j].key == k then w else 0.0)
    {
      assert r[j] == rest[j - 1] && gs[j] == gs[1..][j - 1];
    }
    if k !in GroupKeys(gs) {
      assert r[|gs|] == rest[|gs| - 1];
    }
  }

  /** How the reference group weight changes when one more row is appended. */
  lemma KeyWeightSnoc<K>(init: seq<Record>, last: Record, key: Record -> Option<K>, k: K)
    ensures KeyWeight(init + [last], key, k)
      == KeyWeight(init, key, k) + (if key(last) == Some(k) then last.netWeight else 0.0)
  {
    FilterAppend(init, [last], KeyIs(key, k));
    TotalWeightAppend(Filter(init, KeyIs(key, k)), Filter([last], KeyIs(key, k)));
  }


  /** `groupby(key)["Net Weight (tn)"].sum()`, groups in order of first appearance. */
  function GroupSums<K(==)>(rows: seq<Record>, key: Record -> Option<K>): seq<Group<K>>
    decreases |rows|
  {
    if rows == [] then []
    else
      var gs := GroupSums(rows[..|rows| - 1], key);
      match key(rows[|rows| - 1])
      case None => gs
      case Some(k) => AddToGroup(gs, k, rows[|rows| - 1].netWeight)
  }

  /** No key appears in two groups. */
  lemma {:induction false} GroupSumsDistinct<K>(rows: seq<Record>, key: Record -> Option<K>)
    ensures Distinct(GroupKeys(GroupSums(rows, key)))
    decreases |rows|
  {
    if rows != [] {
      var init, last := rows[..|rows| - 1], rows[|rows| - 1];
      GroupSumsDistinct(init, key);
      var gs := GroupSums(init, key);
      if key(last).Some? {
        var k := key(last).value;
        AddToGroupKeys(gs, k, last.netWeight);
        assert GroupSums(rows, key) == AddToGroup(gs, k, last.netWeight);
        if k !in GroupKeys(gs) {
          DistinctAppend(GroupKeys(gs), k);
        }
      } else {
        assert GroupSums(rows, key) == gs;
      }
    }
  }

  /** Appending a new value to distinct values keeps them distinct. */
  lemma DistinctAppend<T>(s: seq<T>, x: T)
    requires Distinct(s) && x !in s
    ensures Distinct(s + [x])
  {
    var t := s + [x];
    forall i, j | 0 <= i < j < |t|
      ensures t[i] != t[j]
    {
      assert t[i] == s[i];
      if j < |s| {
        assert t[j] == s[j];
      }
    }
  }

  /** Every key carried by a row has a group. */
  lemma {:induction false} GroupSumsCoverRows<K>(rows: seq<Record>, key: Record -> Option<K>)
    ensures forall i :: 0 <= i < |rows| && key(rows[i]).Some? ==> key(rows[i]).value in GroupKeys(GroupSums(rows, key))
    decreases |rows|
  {
    if rows != [] {
      var init, last := rows[..|rows| - 1], rows[|rows| - 1];
      GroupSumsCoverRows(init, key);
      var gs, r := GroupSums(init, key), GroupSums(rows, key);
      if key(last).Some? {
        AddToGroupKeys(gs, key(last).value, last.netWeight);
      } else {
        assert r == gs;
      }
      forall i | 0 <= i < |rows| && key(rows[i]).Some?
        ensures key(rows[i]).value in GroupKeys(r)
      {
        if i < |init| {
          assert rows[i] == init[i];
        }
      }
    }
  }

  /** Some row carries key `k`. */
  predicate KeyOccurs<K(==)>(rows: seq<Record>, key: Record -> Option<K>, k: K) {
    exists i :: 0 <= i < |rows| && key(rows[i]) == Some(k)
  }

  /** Every group's key is carried by some row. */
  lemma {:induction false} GroupSumsKeysFromRows<K>(rows: seq<Record>, key: Record -> Option<K>)
    ensures forall j :: 0 <= j < |GroupSums(rows, key)| ==> KeyOccurs(rows, key, GroupSums(rows, key)[j].key)
    decreases |rows|
  {
    if rows != [] {
      var init, last := rows[..|rows| - 1], rows[|rows| - 1];
      GroupSumsKeysFromRows(init, key);
      KeysFromRowsSnoc(init, last, key);
      assert rows == init + [last];
    }
  }

  /** Appending one row keeps every group key carried by some row. */
  lemma KeysFromRowsSnoc<K>(init: seq<Record>, last: Record, key: Record -> Option<K>)
    requires forall j :: 0 <= j < |GroupSums(init, key)| ==> KeyOccurs(init, key, GroupSums(init, key)[j].key)
    ensures forall j :: 0 <= j < |GroupSums(init + [last], key)| ==>
      KeyOccurs(init + [last], key, GroupSums(init + [last], key)[j].key)
  {
    var rows := init + [last];
    assert rows[..|rows| - 1] == init;
    var gs := GroupSums(init, key);
    if key(last).Some? {
      var k := key(last).value;
      AddToGroupKeys(gs, k, last.netWeight);
      var r := AddToGroup(gs, k, last.netWeight);
      assert GroupSums(rows, key) == r;
      forall j | 0 <= j < |r|
        ensures KeyOccurs(rows, key, r[j].key)
      {
        assert r[j].key == GroupKeys(r)[j];
        if j < |gs| {
          assert GroupKeys(gs)[j] == gs[j].key;
        }
        KeyOccursSnoc(init, last, key, r[j].key);
      }
    } else {
      assert GroupSums(rows, key) == gs;
      forall j | 0 <= j < |gs|
        ensures KeyOccurs(rows, key, gs[j].key)
      {
        KeyOccursSnoc(init, last, key, gs[j].key);
      }
    }
  }

  /** A key carried by a row of `init`, or by `last`, is carried by a row of `init + [last]`. */
  lemma KeyOccursSnoc<K>(init: seq<Record>, last: Record, key: Record -> Option<K>, k: K)
    ensures KeyOccurs(init, key, k) || key(last) == Some(k) ==> KeyOccurs(init + [last], key, k)
  {
    var rows := init + [last];
    if KeyOccurs(init, key, k) {
      var i :| 0 <= i < |init| && key(init[i]) == Some(k);
      assert rows[i] == init[i];
    } else if key(last) == Some(k) {
      assert rows[|init|] == last;
    }
  }



  /** Each group holds the weight of exactly the rows with its key. */
  lemma {:induction false} GroupSumsWeights<K>(rows: seq<Record>, key: Record -> Option<K>)
    ensures forall j :: 0 <= j < |GroupSums(rows, key)| ==>
      GroupSums(rows, key)[j].weight == KeyWeight(rows, key, GroupSums(rows, key)[j].key)
    decreases |rows|
  {
    if rows != [] {
      var init, last := rows[..|rows| - 1], rows[|rows| - 1];
      GroupSumsWeights(init, key);
      GroupSumsWeightsSnoc(init, last, key);
      assert rows == init + [last];
    }
  }

  /** Appending one row keeps every group holding the weight of the rows with its key. */
  lemma GroupSumsWeightsSnoc<K>(init: seq<Record>, last: Record, key: Record -> Option<K>)
    requires forall j :: 0 <= j < |GroupSums(init, key)| ==>
      GroupSums(init, key)[j].weight == KeyWeight(init, key, GroupSums(init, key)[j].key)
    ensures forall j :: 0 <= j < |GroupSums(init + [last], key)| ==>
      GroupSums(init + [last], key)[j].weight == KeyWeight(init + [last], key, GroupSums(init + [last], key)[j].key)
  {
    var rows := init + [last];
    assert rows[..|rows| - 1] == init;
    var gs := GroupSums(init, key);
    if key(last).Some? {
      AddRowWeights(init, last, key, key(last).value);
      assert GroupSums(rows, key) == AddToGroup(gs, key(last).value, last.netWeight);
    } else {
      assert GroupSums(rows, key) == gs;
      forall j | 0 <= j < |gs|
        ensures gs[j].weight == KeyWeight(rows, key, gs[j].key)
      {
        KeyWeightSnoc(init, last, key, gs[j].key);
      }
    }
  }

  /** Adding a row with key `k` to the groups of `init` gives the groups of `init + [last]`, weights included. */
  lemma AddRowWeights<K>(init: seq<Record>, last: Record, key: Record -> Option<K>, k: K)
    requires key(last) == Some(k)
    requires forall j :: 0 <= j < |GroupSums(init, key)| ==>
      GroupSums(init, key)[j].weight == KeyWeight(init, key, GroupSums(init, key)[j].key)
    ensures var r := AddToGroup(GroupSums(init, key), k, last.netWeight);
      forall j :: 0 <= j < |r| ==> r[j].weight == KeyWeight(init + [last], key, r[j].key)
  {
    var gs := GroupSums(init, key);
    var r := AddToGroup(gs, k, last.netWeight);
    OldGroupWeights(init, last, key, k);
    if |r| > |gs| {
      NewGroupWeight(init, last, key, k);
    }
  }

  /** The groups `init` already had hold the weight of their key in `init + [last]`. */
  lemma OldGroupWeights<K>(init: seq<Record>, last: Record, key: Record -> Option<K>, k: K)
    requires key(last) == Some(k)
    requires forall j :: 0 <= j < |GroupSums(init, key)| ==>
      GroupSums(init, key)[j].weight == KeyWeight(init, key, GroupSums(init, key)[j].key)
    ensures |AddToGroup(GroupSums(init, key), k, last.netWeight)| >= |GroupSums(init, key)|
    ensures var gs := GroupSums(init, key); var r := AddToGroup(gs, k, last.netWeight);
      forall j :: 0 <= j < |gs| ==> r[j].weight == KeyWeight(init + [last], key, r[j].key)
  {
    var gs := GroupSums(init, key);
    var r := AddToGroup(gs, k, last.netWeight);
    GroupSumsDistinct(init, key);
    AddToGroupKeepsKeys(gs, k, last.netWeight);
    AddToGroupWeights(gs, k, last.netWeight);
    forall j | 0 <= j < |gs|
      ensures r[j].weight == KeyWeight(init + [last], key, r[j].key)
    {
      KeyWeightSnoc(init, last, key, gs[j].key);
    }
  }

  /** A group opened by the last row holds exactly that row's weight, all its key has. */
  lemma NewGroupWeight<K>(init: seq<Record>, last: Record, key: Record -> Option<K>, k: K)
    requires key(last) == Some(k)
    requires |AddToGroup(GroupSums(init, key), k, last.netWeight)| > |GroupSums(init, key)|
    ensures var gs := GroupSums(init, key); var r := AddToGroup(gs, k, last.netWeight);
      |r| == |gs| + 1 && r[|gs|].weight == KeyWeight(init + [last], key, r[|gs|].key)
  {
    var gs := GroupSums(init, key);
    var r := AddToGroup(gs, k, last.netWeight);
    AddToGroupKeys(gs, k, last.netWeight);
    assert k !in GroupKeys(gs);
    GroupSumsDistinct(init, key);
    AddToGroupWeights(gs, k, last.netWeight);
    assert r[|gs|].key == GroupKeys(r)[|gs|] == k;
    NewKeyNoWeight(init, key, k);
    KeyWeightSnoc(init, last, key, k);
  }


  /** A key without a group is carried by no row, so it has no weight. */
  lemma NewKeyNoWeight<K>(rows: seq<Record>, key: Record -> Option<K>, k: K)
    requires k !in GroupKeys(GroupSums(rows, key))
    ensures KeyWeight(rows, key, k) == 0.0
  {
    GroupSumsCoverRows(rows, key);
    assert forall i :: 0 <= i < |rows| ==> key(rows[i]) != Some(k);
    NoKeyNoWeight(rows, key, k);
  }

  /** A key carried by no row has no weight. */
  lemma {:induction false} NoKeyNoWeight<K>(rows: seq<Record>, key: Record -> Option<K>, k: K)
    requires forall i :: 0 <= i < |rows| ==> key(rows[i]) != Some(k)
    ensures KeyWeight(rows, key, k) == 0.0
  {
    if rows != [] {
      NoKeyNoWeight(rows[1..], key, k);
    }
  }

  /**
   * The group weights add up to the weight of the rows that have a key; for
   * a key every row has, to the frame's KPI total.
   */
  lemma {:induction false} GroupSumsConserveWeight<K>(rows: seq<Record>, key: Record -> Option<K>)
    ensures SumGroups(GroupSums(rows, key)) == TotalWeight(Filter(rows, HasKey(key)))
    decreases |rows|
  {
    if rows != [] {
      var init, last := rows[..|rows| - 1], rows[|rows| - 1];
      assert rows == init + [last];
      GroupSumsConserveWeight(init, key);
      if key(last).Some? {
        AddToGroupSum(GroupSums(init, key), key(last).value, last.netWeight);
      }
      FilterAppend(init, [last], HasKey(key));
      TotalWeightAppend(Filter(init, HasKey(key)), Filter([last], HasKey(key)));
    }
  }

  /** A key every row carries keeps every row. */
  lemma AllRowsKeyed<K>(rows: seq<Record>, key: Record -> Option<K>)
    requires forall i :: 0 <= i < |rows| ==> key(rows[i]).Some?
    ensures Filter(rows, HasKey(key)) == rows
  {
    assert forall i :: 0 <= i < |rows| ==> HasKey(key)(rows[i]);
    FilterAllKept(rows, HasKey(key));
  }

  /** Where every row has a key, the groups add up to the KPI total. */
  lemma GroupSumsAddUpToTotal<K>(rows: seq<Record>, key: Record -> Option<K>)
    requires forall i :: 0 <= i < |rows| ==> key(rows[i]).Some?
    ensures SumGroups(GroupSums(rows, key)) == TotalWeight(rows)
  {
    GroupSumsConserveWeight(rows, key);
    AllRowsKeyed(rows, key);
  }

  /** A group's key, the column pandas orders the groups by. */
  function GroupKey<K>(g: Group<K>): K {
    g.key
  }

  lemma {:induction false} InsertBySum<K>(g: Group<K>, gs: seq<Group<K>>, le: (K, K) -> bool)
    ensures SumGroups(InsertBy(g, gs, GroupKey, le)) == g.weight + SumGroups(gs)
  {
    if gs != [] && !le(GroupKey(g), GroupKey(gs[0])) {
      InsertBySum(g, gs[1..], le);
    }
  }

  /** Reordering the groups does not change their total. */
  lemma {:induction false} SortBySum<K>(gs: seq<Group<K>>, le: (K, K) -> bool)
    ensures SumGroups(SortBy(gs, GroupKey, le)) == SumGroups(gs)
  {
    if gs != [] {
      SortBySum(gs[1..], le);
      InsertBySum(gs[0], SortBy(gs[1..], GroupKey, le), le);
    }
  }

  /**
   * Ordering groups by key keeps their keys, distinct if they were, their
   * members and their total.
   */
  lemma SortGroups<K(!new)>(gs: seq<Group<K>>, le: (K, K) -> bool)
    ensures Distinct(GroupKeys(gs)) ==> Distinct(GroupKeys(SortBy(gs, GroupKey, le)))
    ensures forall k :: k in GroupKeys(gs) ==> k in GroupKeys(SortBy(gs, GroupKey, le))
    ensures forall j :: 0 <= j < |SortBy(gs, GroupKey, le)| ==> SortBy(gs, GroupKey, le)[j] in gs
    ensures SumGroups(SortBy(gs, GroupKey, le)) == SumGroups(gs)
    ensures Total(le) ==> SortedBy(SortBy(gs, GroupKey, le), GroupKey, le)
  {
    SortByMembers(gs, GroupKey, le);
    SortBySorted(gs, GroupKey, le);
    SortBySum(gs, le);
    SortedGroupsDistinct(gs, le);
    SortedGroupsKeys(gs, le);
  }

  lemma SortedGroupsDistinct<K>(gs: seq<Group<K>>, le: (K, K) -> bool)
    ensures Distinct(GroupKeys(gs)) ==> Distinct(GroupKeys(SortBy(gs, GroupKey, le)))
  {
    if Distinct(GroupKeys(gs)) {
      var sorted := SortBy(gs, GroupKey, le);
      assert KeysDistinct(gs, GroupKey) by {
        assert forall j :: 0 <= j < |gs| ==> GroupKeys(gs)[j] == GroupKey(gs[j]);
      }
      SortByKeysDistinct(gs, GroupKey, le);
      assert forall j :: 0 <= j < |sorted| ==> GroupKeys(sorted)[j] == GroupKey(sorted[j]);
    }
  }

  lemma SortedGroupsKeys<K>(gs: seq<Group<K>>, le: (K, K) -> bool)
    ensures forall k :: k in GroupKeys(gs) ==> k in GroupKeys(SortBy(gs, GroupKey, le))
  {
    var sorted := SortBy(gs, GroupKey, le);
    SortByMembers(gs, GroupKey, le);
    forall k | k in GroupKeys(gs)
      ensures k in GroupKeys(sorted)
    {
      var j :| 0 <= j < |gs| && GroupKeys(gs)[j] == k;
      var m :| 0 <= m < |sorted| && sorted[m] == gs[j];
      assert GroupKeys(sorted)[m] == k;
    }
  }

  /**
   * `groupby(key)["Net Weight (tn)"].sum().reset_index()`: one group for
   * each key some row carries and for no other, each holding the weight of
   * exactly the rows with its key, NaN keys dropped, and the groups in key
   * order whenever `le` orders every pair of keys.
   */
  function SortedGroupSums<K(==,!new)>(rows: seq<Record>, key: Record -> Option<K>, le: (K, K) -> bool): (gs: seq<Group<K>>)
    ensures Distinct(GroupKeys(gs))
    ensures forall i :: 0 <= i < |rows| && key(rows[i]).Some? ==> key(rows[i]).value in GroupKeys(gs)
    ensures forall j :: 0 <= j < |gs| ==> KeyOccurs(rows, key, gs[j].key)
    ensures forall j :: 0 <= j < |gs| ==> gs[j].weight == KeyWeight(rows, key, gs[j].key)
    ensures SumGroups(gs) == TotalWeight(Filter(rows, HasKey(key)))
    ensures Total(le) ==> SortedBy(gs, GroupKey, le)
  {
    SortedGroupSumsMembers(rows, key, le);
    GroupSumsDistinct(rows, key);
    GroupSumsCoverRows(rows, key);
    GroupSumsConserveWeight(rows, key);
    SortGroups(GroupSums(rows, key), le);
    SortBy(GroupSums(rows, key), GroupKey, le)
  }

  /** What a group of `rows` holds: a key some row carries and the weight of the rows with that key. */
  function GroupOf<K(==)>(rows: seq<Record>, key: Record -> Option<K>): Group<K> -> bool {
    (g: Group<K>) => KeyOccurs(rows, key, g.key) && g.weight == KeyWeight(rows, key, g.key)
  }

  /** Each sorted group is one of the groups, so it keeps their per-group facts. */
  lemma SortedGroupSumsMembers<K(!new)>(rows: seq<Record>, key: Record -> Option<K>, le: (K, K) -> bool)
    ensures var gs := SortBy(GroupSums(rows, key), GroupKey, le);
      forall j :: 0 <= j < |gs| ==> KeyOccurs(rows, key, gs[j].key) && gs[j].weight == KeyWeight(rows, key, gs[j].key)
  {
    var groups := GroupSums(rows, key);
    GroupSumsKeysFromRows(rows, key);
    GroupSumsWeights(rows, key);
    assert forall j :: 0 <= j < |groups| ==> GroupOf(rows, key)(groups[j]);
    SortByKeepsProperty(groups, GroupKey, le, GroupOf(rows, key));
  }


  /** Which frame a series row came from: the `Type` column added before concatenation. */
  datatype Origin = Incoming | Outgoing

  /** One row of a concatenated chart frame. */
  datatype SeriesPoint<K> = SeriesPoint(key: K, weight: real, origin: Origin)

  /** `grouped["Type"] = origin`: every group tagged with its frame of origin. */
  function Tagged<K>(gs: seq<Group<K>>, origin: Origin): (s: seq<SeriesPoint<K>>)
    ensures |s| == |gs|
  {
    if gs == [] then [] else [SeriesPoint(gs[0].key, gs[0].weight, origin)] + Tagged(gs[1..], origin)
  }

  /** `pd.concat([incoming_groups, outgoing_groups])`. */
  function Combined<K>(incoming: seq<Group<K>>, outgoing: seq<Group<K>>): seq<SeriesPoint<K>> {
    Tagged(incoming, Incoming) + Tagged(outgoing, Outgoing)
  }

  /** The rows of a chart frame with one origin, tag dropped, order kept: what one chart trace plots. */
  function PointsFrom<K>(series: seq<SeriesPoint<K>>, origin: Origin): seq<Group<K>> {
    if series == [] then []
    else
      (if series[0].origin == origin then [Group(series[0].key, series[0].weight)] else [])
      + PointsFrom(series[1..], origin)
  }

  lemma {:induction false} PointsFromAppend<K>(a: seq<SeriesPoint<K>>, b: seq<SeriesPoint<K>>, origin: Origin)
    ensures PointsFrom(a + b, origin) == PointsFrom(a, origin) + PointsFrom(b, origin)
  {
    if a == [] {
      assert a + b == b;
    } else {
      var ab := a + b;
      assert ab[0] == a[0];
      assert ab[1..] == a[1..] + b;
      PointsFromAppend(a[1..], b, origin);
      var h := if a[0].origin == origin then [Group(a[0].key, a[0].weight)] else [];
      assert PointsFrom(ab, origin) == h + (PointsFrom(a[1..], origin) + PointsFrom(b, origin));
      assert PointsFrom(a, origin) == h + PointsFrom(a[1..], origin);
      assert h + (PointsFrom(a[1..], origin) + PointsFrom(b, origin)) == (h + PointsFrom(a[1..], origin)) + PointsFrom(b, origin);
    }
  }

  lemma {:induction false} PointsFromTagged<K>(gs: seq<Group<K>>, tag: Origin, origin: Origin)
    ensures PointsFrom(Tagged(gs, tag), origin) == if tag == origin then gs else []
  {
    if gs != [] {
      PointsFromTagged(gs[1..], tag, origin);
    }
  }

  /**
   * Tagging before concatenating keeps the two frames apart: the incoming
   * trace of the combined frame is exactly the incoming groups, and the
   * outgoing trace exactly the outgoing groups.
   */
  lemma CombinedKeepsOriginsApart<K>(incoming: seq<Group<K>>, outgoing: seq<Group<K>>)
    ensures PointsFrom(Combined(incoming, outgoing), Incoming) == incoming
    ensures PointsFrom(Combined(incoming, outgoing), Outgoing) == outgoing
  {
    PointsFromAppend(Tagged(incoming, Incoming), Tagged(outgoing, Outgoing), Incoming);
    PointsFromAppend(Tagged(incoming, Incoming), Tagged(outgoing, Outgoing), Outgoing);
    PointsFromTagged(incoming, Incoming, Incoming);
    PointsFromTagged(outgoing, Outgoing, Incoming);
    PointsFromTagged(incoming, Incoming, Outgoing);
    PointsFromTagged(outgoing, Outgoing, Outgoing);
  }

  /** `groupby("Waste Type ID")` keys on the cell as stored, not on its stripped form. */
  function WasteTypeKey(r: Record): Option<string> {
    Some(r.wasteType)
  }

  function DateKey(r: Record): Option<Timestamp> {
    Some(r.ticketDate)
  }

  /** A NaN grade has no key and drops out of the grade groups. */
  function GradeKey(r: Record): Option<string> {
    r.grade
  }

  /** The frame behind the "Net Weight by Waste Type" bars. */
  function WasteTypeSeries(fin: Frame, fout: Frame): seq<SeriesPoint<string>> {
    Combined(SortedGroupSums(fin.rows, WasteTypeKey, TextNotAfter), SortedGroupSums(fout.rows, WasteTypeKey, TextNotAfter))
  }

  /** The frame behind the "Incoming vs Outgoing Trend" lines. */
  function TrendSeries(fin: Frame, fout: Frame): seq<SeriesPoint<Timestamp>> {
    Combined(SortedGroupSums(fin.rows, DateKey, NotAfter), SortedGroupSums(fout.rows, DateKey, NotAfter))
  }

  /** The data behind one grade pie: the frame's grade groups. */
  function GradeDistribution(f: Frame): seq<Group<string>> {
    SortedGroupSums(f.rows, GradeKey, TextNotAfter)
  }

  /**
   * Each trace of the waste-type and trend series adds up to its own
   * frame's total weight: the incoming trace to the incoming KPI, the
   * outgoing trace to the outgoing KPI.
   */
  lemma SeriesAddUpToKpis(fin: Frame, fout: Frame)
    ensures SumGroups(PointsFrom(WasteTypeSeries(fin, fout), Incoming)) == TotalWeight(fin.rows)
    ensures SumGroups(PointsFrom(WasteTypeSeries(fin, fout), Outgoing)) == TotalWeight(fout.rows)
    ensures SumGroups(PointsFrom(TrendSeries(fin, fout), Incoming)) == TotalWeight(fin.rows)
    ensures SumGroups(PointsFrom(TrendSeries(fin, fout), Outgoing)) == TotalWeight(fout.rows)
  {
    TraceSums(fin, fout, WasteTypeKey, TextNotAfter);
    TraceSums(fin, fout, DateKey, NotAfter);
  }

  /** With a key every row carries, each trace of the combined series sums to its own frame's total. */
  lemma TraceSums<K(!new)>(fin: Frame, fout: Frame, key: Record -> Option<K>, le: (K, K) -> bool)
    requires forall r :: key(r).Some?
    ensures var series := Combined(SortedGroupSums(fin.rows, key, le), SortedGroupSums(fout.rows, key, le));
      && SumGroups(PointsFrom(series, Incoming)) == TotalWeight(fin.rows)
      && SumGroups(PointsFrom(series, Outgoing)) == TotalWeight(fout.rows)
  {
    AllRowsKeyed(fin.rows, key);
    AllRowsKeyed(fout.rows, key);
    CombinedSums(SortedGroupSums(fin.rows, key, le), SortedGroupSums(fout.rows, key, le));
  }

  /** Each trace of a combined series sums to the groups it came from. */
  lemma CombinedSums<K>(incoming: seq<Group<K>>, outgoing: seq<Group<K>>)
    ensures SumGroups(PointsFrom(Combined(incoming, outgoing), Incoming)) == SumGroups(incoming)
    ensures SumGroups(PointsFrom(Combined(incoming, outgoing), Outgoing)) == SumGroups(outgoing)
  {
    CombinedKeepsOriginsApart(incoming, outgoing);
  }

  lemma NotAfterIsTotal()
    ensures Total(NotAfter)
  {
    forall a: Timestamp, b: Timestamp
      ensures NotAfter(a, b) || NotAfter(b, a)
    {
      NotAfterIsTotalOrder(a, b, a);
    }
  }

  lemma TextNotAfterIsTotal()
    ensures Total(TextNotAfter)
  {
    forall a: string, b: string
      ensures TextNotAfter(a, b) || TextNotAfter(b, a)
    {
      TextNotAfterIsTotalOrder(a, b, a);
    }
  }

  /**
   * Each trace of the trend chart runs forward in time, one point per
   * timestamp, which is the order in which `px.line` joins its points.
   */
  lemma TrendTracesInDateOrder(fin: Frame, fout: Frame)
    ensures forall origin: Origin ::
      var p := PointsFrom(TrendSeries(fin, fout), origin);
      forall i :: 0 < i < |p| ==> NotAfter(p[i - 1].key, p[i].key) && p[i - 1].key != p[i].key
  {
    var gin, gout := SortedGroupSums(fin.rows, DateKey, NotAfter), SortedGroupSums(fout.rows, DateKey, NotAfter);
    CombinedKeepsOriginsApart(gin, gout);
    NotAfterIsTotal();
    forall origin: Origin, i | 0 < i < |PointsFrom(TrendSeries(fin, fout), origin)|
      ensures var p := PointsFrom(TrendSeries(fin, fout), origin);
        NotAfter(p[i - 1].key, p[i].key) && p[i - 1].key != p[i].key
    {
      var p := if origin == Incoming then gin else gout;
      assert GroupKeys(p)[i - 1] == p[i - 1].key && GroupKeys(p)[i] == p[i].key;
    }
  }

  /** The waste-type rows handed to `px.bar` and the grade rows handed to `px.pie` come in the string order of their keys. */
  lemma CategoriesInKeyOrder(fin: Frame, fout: Frame)
    ensures SortedBy(PointsFrom(WasteTypeSeries(fin, fout), Incoming), GroupKey, TextNotAfter)
    ensures SortedBy(PointsFrom(WasteTypeSeries(fin, fout), Outgoing), GroupKey, TextNotAfter)
    ensures SortedBy(GradeDistribution(fin), GroupKey, TextNotAfter)
    ensures SortedBy(GradeDistribution(fout), GroupKey, TextNotAfter)
  {
    CombinedKeepsOriginsApart(SortedGroupSums(fin.rows, WasteTypeKey, TextNotAfter), SortedGroupSums(fout.rows, WasteTypeKey, TextNotAfter));
    TextNotAfterIsTotal();
  }

  /** One point of the cost-per-tonne trend: a ticket timestamp and its mean. */
  datatype DailyMean = DailyMean(date: Timestamp, mean: Option<real>)

  /** The unweighted mean `Cost Per Tonne` of the rows stamped `t`. */
  function MeanAt(rows: seq<Record>, t: Timestamp): Option<real> {
    Mean(CostsPerTonne(Filter(rows, KeyIs(DateKey, t))))
  }

  function DateOf(d: DailyMean): Timestamp {
    d.date
  }

  /** One point per distinct ticket timestamp, in order of first appearance. */
  function DailyPoints(rows: seq<Record>): (ps: seq<DailyMean>)
    ensures KeysDistinct(ps, DateOf)
    ensures forall i :: 0 <= i < |rows| ==> rows[i].ticketDate in DatesOf(ps)
    ensures forall j :: 0 <= j < |ps| ==> PointOf(rows)(ps[j])
  {
    var dates := Unique(TicketDates(rows));
    var ps := seq(|dates|, j requires 0 <= j < |dates| => DailyMean(dates[j], MeanAt(rows, dates[j])));
    DailyPointsFacts(rows, dates, ps);
    ps
  }

  /** Points made one per distinct ticket timestamp have distinct dates, cover every ticket and hold its mean. */
  lemma DailyPointsFacts(rows: seq<Record>, dates: seq<Timestamp>, ps: seq<DailyMean>)
    requires Distinct(dates)
    requires forall i :: 0 <= i < |rows| ==> rows[i].ticketDate in dates
    requires forall j :: 0 <= j < |dates| ==> dates[j] in TicketDates(rows)
    requires |ps| == |dates| && forall j :: 0 <= j < |ps| ==> ps[j] == DailyMean(dates[j], MeanAt(rows, dates[j]))
    ensures KeysDistinct(ps, DateOf)
    ensures forall i :: 0 <= i < |rows| ==> rows[i].ticketDate in DatesOf(ps)
    ensures forall j :: 0 <= j < |ps| ==> PointOf(rows)(ps[j])
  {
    assert DatesOf(ps) == dates;
    forall i, j | 0 <= i < j < |ps|
      ensures DateOf(ps[i]) != DateOf(ps[j])
    {
      assert dates[i] != dates[j];
    }
  }

  /**
   * `groupby("Ticket Date")["Cost Per Tonne"].mean()`: one point for each
   * distinct ticket timestamp and for no other, in time order, each holding
   * the mean over that timestamp's rows.
   */
  function DailyCostPerTonne(rows: seq<Record>): (ds: seq<DailyMean>)
    ensures Distinct(DatesOf(ds))
    ensures forall i :: 0 <= i < |rows| ==> rows[i].ticketDate in DatesOf(ds)
    ensures forall j :: 0 <= j < |ds| ==> ds[j].date in TicketDates(rows)
    ensures forall j :: 0 <= j < |ds| ==> ds[j].mean == MeanAt(rows, ds[j].date)
    ensures SortedBy(ds, DateOf, NotAfter)
  {
    var ps := DailyPoints(rows);
    SortedPointsOrder(ps);
    SortedPointsCover(rows, ps);
    SortByKeepsProperty(ps, DateOf, NotAfter, PointOf(rows));
    SortBy(ps, DateOf, NotAfter)
  }

  /** Ordering the points by time keeps the dates distinct and puts them in order. */
  lemma SortedPointsOrder(ps: seq<DailyMean>)
    requires KeysDistinct(ps, DateOf)
    ensures var ds := SortBy(ps, DateOf, NotAfter);
      Distinct(DatesOf(ds)) && SortedBy(ds, DateOf, NotAfter)
  {
    var ds := SortBy(ps, DateOf, NotAfter);
    SortByKeysDistinct(ps, DateOf, NotAfter);
    NotAfterIsTotal();
    SortBySorted(ps, DateOf, NotAfter);
    assert forall j :: 0 <= j < |ds| ==> DatesOf(ds)[j] == DateOf(ds[j]);
  }

  /** What a point of the cost trend holds: a ticket timestamp and the mean over its rows. */
  function PointOf(rows: seq<Record>): DailyMean -> bool {
    (d: DailyMean) => d.date in TicketDates(rows) && d.mean == MeanAt(rows, d.date)
  }

  /** Ordering the points by time keeps every ticket timestamp among them. */
  lemma SortedPointsCover(rows: seq<Record>, ps: seq<DailyMean>)
    requires forall i :: 0 <= i < |rows| ==> rows[i].ticketDate in DatesOf(ps)
    ensures forall i :: 0 <= i < |rows| ==> rows[i].ticketDate in DatesOf(SortBy(ps, DateOf, NotAfter))
  {
    var ds := SortBy(ps, DateOf, NotAfter);
    SortByMembers(ps, DateOf, NotAfter);
    forall t | t in DatesOf(ps)
      ensures t in DatesOf(ds)
    {
      var k :| 0 <= k < |ps| && DatesOf(ps)[k] == t;
      assert ps[k] in ds;
      var m :| 0 <= m < |ds| && ds[m] == ps[k];
      assert DatesOf(ds)[m] == t;
    }
  }

  /** The dates of the series. */
  function DatesOf(ds: seq<DailyMean>): (ts: seq<Timestamp>)
    ensures |ts| == |ds| && forall j :: 0 <= j < |ds| ==> ts[j] == ds[j].date
  {
    seq(|ds|, j requires 0 <= j < |ds| => ds[j].date)
  }
}
