/**
 Tenant reports: aggregates over one Tenant's rows in a half-open range, and the two cost
 breakdowns by Agent and by Model. Each aggregate query is a single pass over the table.
 */
module Reporting {
  import opened Wrappers
  import opened Sets
  import opened Uuids
  import opened UsageLimit
  import opened Invocations
  import opened InvocationRows
  import opened Admission
  import opened Overshoot

  const TOP_N := 10
  const MAX_REPORT_RANGE := 31 * DAY

  datatype InvocationCounts = InvocationCounts(
    total: int, succeeded: int, failed: int, denied: int, limited: int, costLimited: int)

  datatype UsageTotals = UsageTotals(
    inputUnits: int, outputUnits: int, totalUnits: int, providerExecuted: int, attributed: int, unavailable: int)

  datatype CostTotals = CostTotals(total: int, attributed: int, unavailable: int)

  datatype Totals = Totals(invocations: InvocationCounts, usage: UsageTotals, cost: CostTotals)

  datatype Group = Group(
    id: Uuid, invocations: int, totalUnits: int, usageAttributed: int, usageUnavailable: int,
    cost: int, costAttributed: int, costUnavailable: int)

  datatype Breakdown = Breakdown(listed: seq<Group>, truncated: bool)

  datatype Report = Report(totals: Totals, agents: Breakdown, models: Breakdown)

  datatype ReportError = InvalidReportRange | TenantNotFound

  datatype Range = Range(tenantId: Uuid, start: int, end: int) {
    predicate Covers(row: InvocationRow) {
      row.tenantId == tenantId && start <= row.startedAt < end
    }
  }

  // The expressions the queries aggregate

  predicate ProviderExecuted(row: InvocationRow) {
    row.status == SUCCEEDED || row.status == FAILED
  }

  predicate UsageKnown(row: InvocationRow) {
    ProviderExecuted(row) && row.inputUnits.Some? && row.outputUnits.Some? && row.totalUnits.Some?
  }

  predicate CostKnown(row: InvocationRow) {
    row.status == SUCCEEDED && row.cost.total.Some?
  }

  datatype Measure =
    | ALL | STATUS(status: InvocationStatus)
    | INPUT_UNITS | OUTPUT_UNITS | TOTAL_UNITS | EXECUTED | USAGE_ATTRIBUTED | USAGE_UNAVAILABLE
    | COST | COST_ATTRIBUTED | COST_UNAVAILABLE

  function One(b: bool): int {
    if b then 1 else 0
  }

  function Value(m: Measure, row: InvocationRow): int {
    match m
    case ALL => 1
    case STATUS(status) => One(row.status == status)
    case INPUT_UNITS => if UsageKnown(row) then row.inputUnits.value else 0
    case OUTPUT_UNITS => if UsageKnown(row) then row.outputUnits.value else 0
    case TOTAL_UNITS => if UsageKnown(row) then row.totalUnits.value else 0
    case EXECUTED => One(ProviderExecuted(row))
    case USAGE_ATTRIBUTED => One(UsageKnown(row))
    case USAGE_UNAVAILABLE => One(ProviderExecuted(row) && !UsageKnown(row))
    case COST => if CostKnown(row) then row.cost.total.value else 0
    case COST_ATTRIBUTED => One(CostKnown(row))
    case COST_UNAVAILABLE => One(row.status == SUCCEEDED && !CostKnown(row))
  }

  /** One aggregate over the covered rows of a table. */
  function Sum(m: Measure, range: Range, rows: seq<InvocationRow>): int {
    if rows == [] then 0
    else
      var last := rows[|rows| - 1];
      Sum(m, range, rows[..|rows| - 1]) + (if range.Covers(last) then Value(m, last) else 0)
  }

  function TotalsOf(range: Range, rows: seq<InvocationRow>): Totals {
    Totals(
      InvocationCounts(Sum(ALL, range, rows), Sum(STATUS(SUCCEEDED), range, rows), Sum(STATUS(FAILED), range, rows),
                       Sum(STATUS(DENIED), range, rows), Sum(STATUS(LIMITED), range, rows),
                       Sum(STATUS(COST_LIMITED), range, rows)),
      UsageTotals(Sum(INPUT_UNITS, range, rows), Sum(OUTPUT_UNITS, range, rows), Sum(TOTAL_UNITS, range, rows),
                  Sum(EXECUTED, range, rows), Sum(USAGE_ATTRIBUTED, range, rows), Sum(USAGE_UNAVAILABLE, range, rows)),
      CostTotals(Sum(COST, range, rows), Sum(COST_ATTRIBUTED, range, rows), Sum(COST_UNAVAILABLE, range, rows)))
  }

  // Grouping

  datatype Dimension = AGENT | MODEL

  function Key(dimension: Dimension, row: InvocationRow): Uuid {
    match dimension
    case AGENT => row.agentId
    case MODEL => row.modelId
  }

  /** The rows of one group. */
  function Of(dimension: Dimension, id: Uuid, rows: seq<InvocationRow>): seq<InvocationRow> {
    if rows == [] then []
    else
      var last := rows[|rows| - 1];
      Of(dimension, id, rows[..|rows| - 1]) + (if Key(dimension, last) == id then [last] else [])
  }

  function Keys(dimension: Dimension, range: Range, rows: seq<InvocationRow>): set<Uuid> {
    set row | row in rows && range.Covers(row) :: Key(dimension, row)
  }

  function GroupOf(dimension: Dimension, range: Range, rows: seq<InvocationRow>, id: Uuid): Group {
    var own := Of(dimension, id, rows);
    Group(id, Sum(ALL, range, own), Sum(TOTAL_UNITS, range, own), Sum(USAGE_ATTRIBUTED, range, own),
          Sum(USAGE_UNAVAILABLE, range, own), Sum(COST, range, own), Sum(COST_ATTRIBUTED, range, own),
          Sum(COST_UNAVAILABLE, range, own))
  }

  /** ORDER BY estimated cost DESC, id ASC. */
  predicate Before(a: Group, b: Group) {
    a.cost > b.cost || (a.cost == b.cost && a.id < b.id)
  }

  predicate Ranked(groups: seq<Group>) {
    forall i, j :: 0 <= i < j < |groups| ==> Before(groups[i], groups[j])
  }

  ghost predicate Lists(groups: seq<Group>, id: Uuid) {
    exists g :: g in groups && g.id == id
  }

  /** The listing holds the best groups in order, and says whether there are more. */
  ghost predicate IsBreakdown(dimension: Dimension, range: Range, rows: seq<InvocationRow>, b: Breakdown) {
    var ids := Keys(dimension, range, rows);
    && Ranked(b.listed)
    && |b.listed| == (if |ids| < TOP_N then |ids| else TOP_N)
    && (forall g :: g in b.listed ==> g.id in ids && g == GroupOf(dimension, range, rows, g.id))
    && (forall id, g :: id in ids && !Lists(b.listed, id) && g in b.listed ==>
          Before(g, GroupOf(dimension, range, rows, id)))
    && (b.truncated <==> |ids| > TOP_N)
  }

  // The queries

  lemma SumAppend(m: Measure, range: Range, rows: seq<InvocationRow>, row: InvocationRow)
    ensures Sum(m, range, rows + [row]) == Sum(m, range, rows) + (if range.Covers(row) then Value(m, row) else 0)
  {
    assert (rows + [row])[..|rows|] == rows;
  }

  /** What one covered row adds to every aggregate of the totals. */
  function AddRow(t: Totals, row: InvocationRow): Totals {
    var i, u, c := t.invocations, t.usage, t.cost;
    Totals(
      InvocationCounts(i.total + Value(ALL, row), i.succeeded + Value(STATUS(SUCCEEDED), row),
                       i.failed + Value(STATUS(FAILED), row), i.denied + Value(STATUS(DENIED), row),
                       i.limited + Value(STATUS(LIMITED), row), i.costLimited + Value(STATUS(COST_LIMITED), row)),
      UsageTotals(u.inputUnits + Value(INPUT_UNITS, row), u.outputUnits + Value(OUTPUT_UNITS, row),
                  u.totalUnits + Value(TOTAL_UNITS, row), u.providerExecuted + Value(EXECUTED, row),
                  u.attributed + Value(USAGE_ATTRIBUTED, row), u.unavailable + Value(USAGE_UNAVAILABLE, row)),
      CostTotals(c.total + Value(COST, row), c.attributed + Value(COST_ATTRIBUTED, row),
                 c.unavailable + Value(COST_UNAVAILABLE, row)))
  }

  lemma TotalsAppend(range: Range, rows: seq<InvocationRow>, row: InvocationRow)
    ensures TotalsOf(range, rows + [row]) ==
            if range.Covers(row) then AddRow(TotalsOf(range, rows), row) else TotalsOf(range, rows)
  {
    hide Value, Sum;
    forall m: Measure
      ensures Sum(m, range, rows + [row]) == Sum(m, range, rows) + (if range.Covers(row) then Value(m, row) else 0)
    {
      SumAppend(m, range, rows, row);
    }
  }

  method AggregateTotals(range: Range, rows: seq<InvocationRow>) returns (t: Totals)
    ensures t == TotalsOf(range, rows)
    ensures InvocationCountsMean(t.invocations, range.tenantId, range.start, range.end, rows)
    ensures UsageTotalsMean(t.usage, range.tenantId, range.start, range.end, rows)
    ensures CostTotalsMean(t.cost, range.tenantId, range.start, range.end, rows)
  {
    hide TotalsOf, AddRow, InvocationCountsMean, UsageTotalsMean, CostTotalsMean;
    t := Totals(InvocationCounts(0, 0, 0, 0, 0, 0), UsageTotals(0, 0, 0, 0, 0, 0), CostTotals(0, 0, 0));
    NoRowsNoTotals(range);
    for i := 0 to |rows|
      invariant t == TotalsOf(range, rows[..i])
    {
      assert rows[..i + 1] == rows[..i] + [rows[i]];
      TotalsAppend(range, rows[..i], rows[i]);
      if range.Covers(rows[i]) {
        t := AddRow(t, rows[i]);
      }
    }
    assert rows[..|rows|] == rows;
    InvocationCountsAreMeant(range, rows);
    UsageTotalsAreMeant(range, rows);
    CostTotalsAreMeant(range, rows);
  }

  lemma NoRowsNoTotals(range: Range)
    ensures TotalsOf(range, []) ==
            Totals(InvocationCounts(0, 0, 0, 0, 0, 0), UsageTotals(0, 0, 0, 0, 0, 0), CostTotals(0, 0, 0))
  {
  }

  // GROUP BY

  lemma OfAppend(dimension: Dimension, id: Uuid, rows: seq<InvocationRow>, row: InvocationRow)
    ensures Of(dimension, id, rows + [row]) ==
            Of(dimension, id, rows) + (if Key(dimension, row) == id then [row] else [])
  {
    assert (rows + [row])[..|rows|] == rows;
  }

  function AddToGroup(g: Group, row: InvocationRow): Group {
    Group(g.id, g.invocations + Value(ALL, row), g.totalUnits + Value(TOTAL_UNITS, row),
          g.usageAttributed + Value(USAGE_ATTRIBUTED, row), g.usageUnavailable + Value(USAGE_UNAVAILABLE, row),
          g.cost + Value(COST, row), g.costAttributed + Value(COST_ATTRIBUTED, row),
          g.costUnavailable + Value(COST_UNAVAILABLE, row))
  }

  lemma GroupAppend(dimension: Dimension, range: Range, rows: seq<InvocationRow>, row: InvocationRow, id: Uuid)
    ensures GroupOf(dimension, range, rows + [row], id) ==
            if range.Covers(row) && Key(dimension, row) == id then AddToGroup(GroupOf(dimension, range, rows, id), row)
            else GroupOf(dimension, range, rows, id)
  {
    hide Value, Sum, Of;
    OfAppend(dimension, id, rows, row);
    var own := Of(dimension, id, rows);
    assert own + [] == own;
    forall m: Measure
      ensures Sum(m, range, own + [row]) == Sum(m, range, own) + (if range.Covers(row) then Value(m, row) else 0)
    {
      SumAppend(m, range, own, row);
    }
  }

  function EmptyGroup(id: Uuid): Group {
    Group(id, 0, 0, 0, 0, 0, 0, 0)
  }

  lemma {:induction false} NoCoveredRows(m: Measure, dimension: Dimension, range: Range, rows: seq<InvocationRow>, id: Uuid)
    requires id !in Keys(dimension, range, rows)
    ensures Sum(m, range, Of(dimension, id, rows)) == 0
  {
    hide Value;
    if rows != [] {
      var front, last := rows[..|rows| - 1], rows[|rows| - 1];
      assert last in rows && forall row :: row in front ==> row in rows;
      NoCoveredRows(m, dimension, range, front, id);
      if Key(dimension, last) == id {
        SumAppend(m, range, Of(dimension, id, front), last);
      } else {
        assert Of(dimension, id, rows) == Of(dimension, id, front);
      }
    }
  }

  lemma AbsentGroupIsEmpty(dimension: Dimension, range: Range, rows: seq<InvocationRow>, id: Uuid)
    requires id !in Keys(dimension, range, rows)
    ensures GroupOf(dimension, range, rows, id) == EmptyGroup(id)
  {
    hide Value, Sum, Of, Keys;
    forall m: Measure
      ensures Sum(m, range, Of(dimension, id, rows)) == 0
    {
      NoCoveredRows(m, dimension, range, rows, id);
    }
  }

  lemma KeysAppend(dimension: Dimension, range: Range, rows: seq<InvocationRow>, row: InvocationRow)
    ensures Keys(dimension, range, rows + [row]) ==
            Keys(dimension, range, rows) + (if range.Covers(row) then {Key(dimension, row)} else {})
  {
    var longer := rows + [row];
    assert forall r :: r in longer <==> r in rows || r == row;
  }

  /** The hash aggregation: one group per key met, in the order first met. */
  ghost predicate Grouped(dimension: Dimension, range: Range, rows: seq<InvocationRow>, order: seq<Uuid>, groups: map<Uuid, Group>) {
    && groups.Keys == Keys(dimension, range, rows)
    && (forall id :: id in groups ==> groups[id] == GroupOf(dimension, range, rows, id))
    && (forall id :: id in order <==> id in groups)
    && (forall i, j :: 0 <= i < j < |order| ==> order[i] != order[j])
  }

  lemma GroupedAppend(dimension: Dimension, range: Range, rows: seq<InvocationRow>, order: seq<Uuid>, groups: map<Uuid, Group>,
                      row: InvocationRow)
    requires Grouped(dimension, range, rows, order, groups)
    ensures !range.Covers(row) ==> Grouped(dimension, range, rows + [row], order, groups)
    ensures range.Covers(row) ==>
              var id := Key(dimension, row);
              Grouped(dimension, range, rows + [row], if id in groups then order else order + [id],
                      groups[id := AddToGroup(if id in groups then groups[id] else EmptyGroup(id), row)])
  {
    hide GroupOf, Keys, AddToGroup, EmptyGroup;
    KeysAppend(dimension, range, rows, row);
    forall id: Uuid
      ensures GroupOf(dimension, range, rows + [row], id) ==
              if range.Covers(row) && Key(dimension, row) == id then AddToGroup(GroupOf(dimension, range, rows, id), row)
              else GroupOf(dimension, range, rows, id)
      ensures id !in Keys(dimension, range, rows) ==> GroupOf(dimension, range, rows, id) == EmptyGroup(id)
    {
      GroupAppend(dimension, range, rows, row, id);
      if id !in Keys(dimension, range, rows) {
        AbsentGroupIsEmpty(dimension, range, rows, id);
      }
    }
  }

  method GroupRows(dimension: Dimension, range: Range, rows: seq<InvocationRow>)
    returns (order: seq<Uuid>, groups: map<Uuid, Group>)
    ensures Grouped(dimension, range, rows, order, groups)
    ensures dimension.AGENT? ==> GroupingMeans(groups, range.tenantId, range.start, range.end, rows, (row: InvocationRow) => row.agentId)
    ensures dimension.MODEL? ==> GroupingMeans(groups, range.tenantId, range.start, range.end, rows, (row: InvocationRow) => row.modelId)
  {
    order, groups := [], map[];
    assert Grouped(dimension, range, [], order, groups);
    assert rows[..0] == [];
    hide Grouped, AddToGroup, EmptyGroup, GroupingMeans;
    for i := 0 to |rows|
      invariant Grouped(dimension, range, rows[..i], order, groups)
    {
      assert rows[..i + 1] == rows[..i] + [rows[i]];
      GroupedAppend(dimension, range, rows[..i], order, groups, rows[i]);
      if range.Covers(rows[i]) {
        var id := Key(dimension, rows[i]);
        if id in groups {
          groups := groups[id := AddToGroup(groups[id], rows[i])];
        } else {
          groups, order := groups[id := AddToGroup(EmptyGroup(id), rows[i])], order + [id];
        }
      }
    }
    assert rows[..|rows|] == rows;
    if dimension.AGENT? {
      GroupingIsMeant(dimension, range, rows, (row: InvocationRow) => row.agentId, order, groups);
    } else {
      GroupingIsMeant(dimension, range, rows, (row: InvocationRow) => row.modelId, order, groups);
    }
  }

  // ORDER BY and LIMIT

  lemma BeforeIsTotal(a: Group, b: Group, c: Group)
    ensures !Before(a, a)
    ensures a.id != b.id ==> Before(a, b) || Before(b, a)
    ensures Before(a, b) && Before(b, c) ==> Before(a, c)
  {
  }

  /** Insertion into a ranked sequence that holds no group of this identity. */
  function Insert(ranked: seq<Group>, g: Group): (r: seq<Group>)
    ensures |r| == |ranked| + 1
    ensures forall x :: x in r <==> x in ranked || x == g
  {
    if ranked == [] then [g]
    else if Before(g, ranked[0]) then [g] + ranked
    else [ranked[0]] + Insert(ranked[1..], g)
  }

  lemma {:induction false} InsertKeepsRanked(ranked: seq<Group>, g: Group)
    requires Ranked(ranked) && forall x :: x in ranked ==> x.id != g.id
    ensures Ranked(Insert(ranked, g))
  {
    if ranked != [] && !Before(g, ranked[0]) {
      InsertKeepsRanked(ranked[1..], g);
      var tail := Insert(ranked[1..], g);
      forall x | x in tail
        ensures Before(ranked[0], x)
      {
        if x != g {
          var j :| 0 <= j < |ranked[1..]| && ranked[1..][j] == x;
          assert Before(ranked[0], ranked[j + 1]);
        }
      }
    }
  }

  method RankGroups(order: seq<Uuid>, groups: map<Uuid, Group>) returns (ranked: seq<Group>)
    requires forall id :: id in order <==> id in groups
    requires forall id :: id in groups ==> groups[id].id == id
    requires forall i, j :: 0 <= i < j < |order| ==> order[i] != order[j]
    ensures Ranked(ranked) && |ranked| == |order|
    ensures forall g :: g in ranked <==> g.id in groups && groups[g.id] == g
  {
    ranked := [];
    for i := 0 to |order|
      invariant Ranked(ranked) && |ranked| == i
      invariant forall g :: g in ranked <==> g.id in order[..i] && groups[g.id] == g
    {
      InsertKeepsRanked(ranked, groups[order[i]]);
      ranked := Insert(ranked, groups[order[i]]);
      assert order[..i + 1] == order[..i] + [order[i]];
    }
    assert order[..|order|] == order;
  }

  lemma {:induction false} DistinctLength(order: seq<Uuid>, ids: set<Uuid>)
    requires forall id :: id in order <==> id in ids
    requires forall i, j :: 0 <= i < j < |order| ==> order[i] != order[j]
    ensures |order| == |ids|
  {
    if order == [] {
      assert ids == {};
    } else {
      var front, last := order[..|order| - 1], order[|order| - 1];
      assert order == front + [last];
      DistinctLength(front, ids - {last});
    }
  }

  /** The first eleven groups are fetched; ten are listed, and an eleventh means there are more. */
  method BreakDown(dimension: Dimension, range: Range, rows: seq<InvocationRow>) returns (b: Breakdown)
    ensures IsBreakdown(dimension, range, rows, b)
    ensures dimension.AGENT? ==> BreakdownMeans(b, range.tenantId, range.start, range.end, rows, (row: InvocationRow) => row.agentId)
    ensures dimension.MODEL? ==> BreakdownMeans(b, range.tenantId, range.start, range.end, rows, (row: InvocationRow) => row.modelId)
  {
    hide GroupOf, Keys, GroupingMeans, BreakdownMeans;
    var order, groups := GroupRows(dimension, range, rows);
    assert forall id :: id in groups ==> groups[id].id == id by {
      forall id | id in groups
        ensures groups[id].id == id
      {
        GroupIdentity(dimension, range, rows, id);
      }
    }
    var ranked := RankGroups(order, groups);
    var fetched := if |ranked| <= TOP_N + 1 then ranked else ranked[..TOP_N + 1];
    b := Breakdown(if |fetched| <= TOP_N then fetched else fetched[..TOP_N], |fetched| > TOP_N);
    DistinctLength(order, groups.Keys);
    FirstOfRanked(dimension, range, rows, groups, ranked, b);
    if dimension.AGENT? {
      BreakdownIsMeant(dimension, range, rows, (row: InvocationRow) => row.agentId, b);
    } else {
      BreakdownIsMeant(dimension, range, rows, (row: InvocationRow) => row.modelId, b);
    }
  }

  lemma GroupIdentity(dimension: Dimension, range: Range, rows: seq<InvocationRow>, id: Uuid)
    ensures GroupOf(dimension, range, rows, id).id == id
  {
  }

  lemma FirstOfRanked(dimension: Dimension, range: Range, rows: seq<InvocationRow>, groups: map<Uuid, Group>, ranked: seq<Group>,
                      b: Breakdown)
    requires groups.Keys == Keys(dimension, range, rows) && |ranked| == |groups.Keys|
    requires forall id :: id in groups ==> groups[id] == GroupOf(dimension, range, rows, id) && groups[id].id == id
    requires Ranked(ranked) && forall g :: g in ranked <==> g.id in groups && groups[g.id] == g
    requires b.listed == (if |ranked| <= TOP_N then ranked else ranked[..TOP_N]) && b.truncated == (|ranked| > TOP_N)
    ensures IsBreakdown(dimension, range, rows, b)
  {
    hide GroupOf, Keys, Before;
    forall id, g | id in groups && !Lists(b.listed, id) && g in b.listed
      ensures Before(g, GroupOf(dimension, range, rows, id))
    {
      assert groups[id] in ranked;
      var j :| 0 <= j < |ranked| && ranked[j] == groups[id];
      var i :| 0 <= i < |b.listed| && b.listed[i] == g;
      assert j >= |b.listed|;
      assert Before(ranked[i], ranked[j]);
    }
  }

  // What the reports mean

  /** Every covered row has one status; executed rows have known or unavailable usage; succeeded
      rows have known or unavailable cost. */
  lemma {:induction false} CountsAreConserved(range: Range, rows: seq<InvocationRow>)
    ensures var t := TotalsOf(range, rows);
            && t.invocations.total == t.invocations.succeeded + t.invocations.failed + t.invocations.denied
                                      + t.invocations.limited + t.invocations.costLimited
            && t.usage.providerExecuted == t.invocations.succeeded + t.invocations.failed
            && t.usage.attributed + t.usage.unavailable == t.usage.providerExecuted
            && t.cost.attributed + t.cost.unavailable == t.invocations.succeeded
  {
    hide Sum;
    if rows == [] {
      NoRowsNoTotals(range);
    } else {
      var front, last := rows[..|rows| - 1], rows[|rows| - 1];
      assert rows == front + [last];
      CountsAreConserved(range, front);
      TotalsAppend(range, front, last);
    }
  }

  /** A measure added up over groups. */
  function SumOverGroups(m: Measure, dimension: Dimension, range: Range, rows: seq<InvocationRow>, ids: seq<Uuid>): int {
    if ids == [] then 0
    else SumOverGroups(m, dimension, range, rows, ids[..|ids| - 1])
         + Sum(m, range, Of(dimension, ids[|ids| - 1], rows))
  }

  predicate Distinct(ids: seq<Uuid>) {
    forall i, j :: 0 <= i < j < |ids| ==> ids[i] != ids[j]
  }

  lemma {:induction false} GroupsAppend(m: Measure, dimension: Dimension, range: Range, rows: seq<InvocationRow>,
                                        row: InvocationRow, ids: seq<Uuid>)
    requires Distinct(ids)
    ensures SumOverGroups(m, dimension, range, rows + [row], ids) ==
            SumOverGroups(m, dimension, range, rows, ids)
            + (if Key(dimension, row) in ids && range.Covers(row) then Value(m, row) else 0)
  {
    hide Value, Sum, Of, Key;
    if ids != [] {
      var front, id := ids[..|ids| - 1], ids[|ids| - 1];
      assert ids == front + [id];
      GroupsAppend(m, dimension, range, rows, row, front);
      OfAppend(dimension, id, rows, row);
      var own := Of(dimension, id, rows);
      assert own + [] == own;
      SumAppend(m, range, own, row);
    }
  }

  lemma {:induction false} GroupsOfNothing(m: Measure, dimension: Dimension, range: Range, ids: seq<Uuid>)
    ensures SumOverGroups(m, dimension, range, [], ids) == 0
  {
    if ids != [] {
      GroupsOfNothing(m, dimension, range, ids[..|ids| - 1]);
    }
  }

  /** Over the full grouping, in any order, every group measure adds up to its overall total. */
  lemma {:induction false} GroupTotalsAreConserved(m: Measure, dimension: Dimension, range: Range,
                                                   rows: seq<InvocationRow>, ids: seq<Uuid>)
    requires Distinct(ids) && forall id :: id in Keys(dimension, range, rows) ==> id in ids
    ensures SumOverGroups(m, dimension, range, rows, ids) == Sum(m, range, rows)
  {
    hide Value, Key, SumOverGroups, Of;
    if rows == [] {
      GroupsOfNothing(m, dimension, range, ids);
    } else {
      var front, last := rows[..|rows| - 1], rows[|rows| - 1];
      assert rows == front + [last];
      KeysAppend(dimension, range, front, last);
      GroupTotalsAreConserved(m, dimension, range, front, ids);
      GroupsAppend(m, dimension, range, front, last, ids);
    }
  }

  /** The listing is determined: two breakdowns of the same rows are equal. */
  lemma BreakdownIsUnique(dimension: Dimension, range: Range, rows: seq<InvocationRow>, a: Breakdown, b: Breakdown)
    requires IsBreakdown(dimension, range, rows, a) && IsBreakdown(dimension, range, rows, b)
    ensures a == b
  {
    hide GroupOf, Keys, Before;
    forall k | 0 <= k < |a.listed|
      ensures a.listed[k] == b.listed[k]
    {
      SameUpTo(dimension, range, rows, a, b, k);
    }
  }

  lemma {:induction false} SameUpTo(dimension: Dimension, range: Range, rows: seq<InvocationRow>, a: Breakdown, b: Breakdown, k: nat)
    requires IsBreakdown(dimension, range, rows, a) && IsBreakdown(dimension, range, rows, b)
    requires k < |a.listed|
    ensures k < |b.listed| && a.listed[..k + 1] == b.listed[..k + 1]
  {
    hide GroupOf, Keys, Before;
    if k > 0 {
      SameUpTo(dimension, range, rows, a, b, k - 1);
    }
    var x, y := a.listed[k], b.listed[k];
    assert a.listed[..k] == b.listed[..k];
    assert x in a.listed && y in b.listed;
    BeforeIsTotal(x, y, x);
    BeforeIsTotal(y, x, y);
    if x.id != y.id {
      if Before(x, y) {
        NotAhead(dimension, range, rows, a, b, k);
      } else {
        NotAhead(dimension, range, rows, b, a, k);
      }
    }
  }

  /** With equal beginnings, the next group of one listing cannot come before that of the other. */
  lemma NotAhead(dimension: Dimension, range: Range, rows: seq<InvocationRow>, a: Breakdown, b: Breakdown, k: nat)
    requires IsBreakdown(dimension, range, rows, a) && IsBreakdown(dimension, range, rows, b)
    requires k < |a.listed| && k < |b.listed| && a.listed[..k] == b.listed[..k]
    ensures !Before(a.listed[k], b.listed[k])
  {
    hide GroupOf, Keys, Before;
    var x, y := a.listed[k], b.listed[k];
    assert x in a.listed && y in b.listed;
    BeforeIsTotal(x, y, x);
    BeforeIsTotal(y, x, y);
    BeforeIsTotal(x, x, x);
    assert forall i :: 0 <= i < k ==> a.listed[..k][i] == b.listed[..k][i];
    if Lists(b.listed, x.id) {
      var g :| g in b.listed && g.id == x.id;
      assert g == x;
      var j :| 0 <= j < |b.listed| && b.listed[j] == x;
      assert k <= j;
    }
  }

  /** Reports of adjacent ranges add up to the report of their union. */
  lemma {:induction false} RangesAdd(m: Measure, tenantId: Uuid, start: int, middle: int, end: int, rows: seq<InvocationRow>)
    requires start <= middle <= end
    ensures Sum(m, Range(tenantId, start, middle), rows) + Sum(m, Range(tenantId, middle, end), rows) ==
            Sum(m, Range(tenantId, start, end), rows)
  {
    hide Value;
    if rows != [] {
      RangesAdd(m, tenantId, start, middle, end, rows[..|rows| - 1]);
    }
  }

  /** Only succeeded rows carry a cost; construction guarantees it for every stored aggregate. */
  predicate CostOnlyWhenSucceeded(row: InvocationRow) {
    row.cost.total.Some? ==> row.status == SUCCEEDED
  }

  lemma StoredCostOnlyWhenSucceeded(v: Invocation)
    requires Valid(v)
    ensures CostOnlyWhenSucceeded(Store(v))
  {
    assert CostMatchesStatus(v);
  }

  /** The estimated total of a UTC day is the sum that the day's cost gate reads. */
  lemma {:induction false} ReportAgreesWithBudgetGate(tenantId: Uuid, at: int, rows: seq<InvocationRow>)
    requires forall row :: row in rows ==> CostOnlyWhenSucceeded(row)
    ensures var day := UtcDayWindow(at);
            TotalsOf(Range(tenantId, day.start, day.end), rows).cost.total == Consumption(CostMeter(tenantId, day), rows)
  {
    if rows != [] {
      var front, last := rows[..|rows| - 1], rows[|rows| - 1];
      assert last in rows && forall row :: row in front ==> row in rows;
      ReportAgreesWithBudgetGate(tenantId, at, front);
    }
  }

  /** Rows are only ever added, and count upwards: a later read never reports less. */
  lemma {:induction false} LaterReadsReportMore(m: Measure, range: Range, earlier: seq<InvocationRow>, later: seq<InvocationRow>)
    requires earlier <= later && forall row :: row in later ==> CountsUp(row)
    ensures Sum(m, range, earlier) <= Sum(m, range, later)
  {
    if |earlier| < |later| {
      var front, last := later[..|later| - 1], later[|later| - 1];
      assert last in later && forall row :: row in front ==> row in later;
      LaterReadsReportMore(m, range, earlier, front);
    } else {
      assert earlier == later;
    }
  }

  // The same, read off the columns of the table

  /** SUM of an expression over the rows. */
  function Added(rows: seq<InvocationRow>, f: InvocationRow -> int): int {
    if rows == [] then 0 else Added(rows[..|rows| - 1], f) + f(rows[|rows| - 1])
  }

  /** COUNT of the rows that meet a condition. */
  function Counted(rows: seq<InvocationRow>, p: InvocationRow -> bool): nat {
    |set i | 0 <= i < |rows| && p(rows[i])|
  }

  lemma CountedAppend(rows: seq<InvocationRow>, row: InvocationRow, p: InvocationRow -> bool)
    ensures Counted(rows + [row], p) == Counted(rows, p) + (if p(row) then 1 else 0)
  {
    var longer := rows + [row];
    var before := set i | 0 <= i < |rows| && p(rows[i]);
    assert (set i | 0 <= i < |longer| && p(longer[i])) == before + (if p(row) then {|rows|} else {});
    assert |rows| !in before;
  }

  lemma {:induction false} GroupSumIsAdded(m: Measure, dimension: Dimension, range: Range, rows: seq<InvocationRow>, id: Uuid,
                                           f: InvocationRow -> int)
    requires forall row :: f(row) == if range.Covers(row) && Key(dimension, row) == id then Value(m, row) else 0
    ensures Sum(m, range, Of(dimension, id, rows)) == Added(rows, f)
  {
    hide Value, Key;
    if rows != [] {
      var front, last := rows[..|rows| - 1], rows[|rows| - 1];
      GroupSumIsAdded(m, dimension, range, front, id, f);
      SumAppend(m, range, Of(dimension, id, front), last);
      assert Of(dimension, id, front) + [] == Of(dimension, id, front);
    }
  }

  lemma {:induction false} OnesAreCounted(rows: seq<InvocationRow>, f: InvocationRow -> int, p: InvocationRow -> bool)
    requires forall row :: f(row) == if p(row) then 1 else 0
    ensures Added(rows, f) == Counted(rows, p)
  {
    hide Counted;
    if rows == [] {
      NothingIsCounted(p);
    } else {
      var front, last := rows[..|rows| - 1], rows[|rows| - 1];
      OnesAreCounted(front, f, p);
      CountedAppend(front, last, p);
      assert rows == front + [last];
    }
  }

  lemma GroupSumIsCounted(m: Measure, dimension: Dimension, range: Range, rows: seq<InvocationRow>, id: Uuid,
                          p: InvocationRow -> bool)
    requires forall row :: (if p(row) then 1 else 0) ==
                           if range.Covers(row) && Key(dimension, row) == id then Value(m, row) else 0
    ensures Sum(m, range, Of(dimension, id, rows)) == Counted(rows, p)
  {
    hide Value, Key, Counted, Added, Sum, Of;
    var f := (row: InvocationRow) => if p(row) then 1 else 0;
    GroupSumIsAdded(m, dimension, range, rows, id, f);
    OnesAreCounted(rows, f, p);
  }

  lemma NothingIsCounted(p: InvocationRow -> bool)
    ensures Counted([], p) == 0
  {
    var rows: seq<InvocationRow> := [];
    assert (set i | 0 <= i < |rows| && p(rows[i])) == {};
  }

  lemma {:induction false} SumIsAdded(m: Measure, range: Range, rows: seq<InvocationRow>, f: InvocationRow -> int)
    requires forall row :: f(row) == if range.Covers(row) then Value(m, row) else 0
    ensures Sum(m, range, rows) == Added(rows, f)
  {
    hide Value;
    if rows != [] {
      SumIsAdded(m, range, rows[..|rows| - 1], f);
    }
  }

  lemma SumIsCounted(m: Measure, range: Range, rows: seq<InvocationRow>, p: InvocationRow -> bool)
    requires forall row :: (if p(row) then 1 else 0) == if range.Covers(row) then Value(m, row) else 0
    ensures Sum(m, range, rows) == Counted(rows, p)
  {
    hide Value, Counted, Added, Sum;
    var f := (row: InvocationRow) => if p(row) then 1 else 0;
    SumIsAdded(m, range, rows, f);
    OnesAreCounted(rows, f, p);
  }

  /** What the totals of a Tenant's range say about the rows. */
  ghost predicate InvocationCountsMean(c: InvocationCounts, tenantId: Uuid, start: int, end: int, rows: seq<InvocationRow>) {
    var covered := (row: InvocationRow) => row.tenantId == tenantId && start <= row.startedAt < end;
    && c.total == Counted(rows, covered)
    && c.succeeded == Counted(rows, row => covered(row) && row.status == SUCCEEDED)
    && c.failed == Counted(rows, row => covered(row) && row.status == FAILED)
    && c.denied == Counted(rows, row => covered(row) && row.status == DENIED)
    && c.limited == Counted(rows, row => covered(row) && row.status == LIMITED)
    && c.costLimited == Counted(rows, row => covered(row) && row.status == COST_LIMITED)
  }

  /** Units count only where all three are known, on rows that reached the provider. */
  ghost predicate UsageTotalsMean(u: UsageTotals, tenantId: Uuid, start: int, end: int, rows: seq<InvocationRow>) {
    var covered := (row: InvocationRow) => row.tenantId == tenantId && start <= row.startedAt < end;
    var executed := (row: InvocationRow) => covered(row) && (row.status == SUCCEEDED || row.status == FAILED);
    var counted := (row: InvocationRow) => row.inputUnits.Some? && row.outputUnits.Some? && row.totalUnits.Some?;
    && u.inputUnits == Added(rows, row => if executed(row) && counted(row) then row.inputUnits.value else 0)
    && u.outputUnits == Added(rows, row => if executed(row) && counted(row) then row.outputUnits.value else 0)
    && u.totalUnits == Added(rows, row => if executed(row) && counted(row) then row.totalUnits.value else 0)
    && u.providerExecuted == Counted(rows, executed)
    && u.attributed == Counted(rows, row => executed(row) && counted(row))
    && u.unavailable == Counted(rows, row => executed(row) && !counted(row))
  }

  ghost predicate CostTotalsMean(c: CostTotals, tenantId: Uuid, start: int, end: int, rows: seq<InvocationRow>) {
    var succeeded := (row: InvocationRow) => row.tenantId == tenantId && start <= row.startedAt < end && row.status == SUCCEEDED;
    && c.total == Added(rows, row => if succeeded(row) && row.cost.total.Some? then row.cost.total.value else 0)
    && c.attributed == Counted(rows, row => succeeded(row) && row.cost.total.Some?)
    && c.unavailable == Counted(rows, row => succeeded(row) && row.cost.total.None?)
  }

  lemma InvocationCountsAreMeant(range: Range, rows: seq<InvocationRow>)
    ensures InvocationCountsMean(TotalsOf(range, rows).invocations, range.tenantId, range.start, range.end, rows)
  {
    hide Sum, Counted;
    var covered := (row: InvocationRow) => row.tenantId == range.tenantId && range.start <= row.startedAt < range.end;
    SumIsCounted(ALL, range, rows, covered);
    SumIsCounted(STATUS(SUCCEEDED), range, rows, row => covered(row) && row.status == SUCCEEDED);
    SumIsCounted(STATUS(FAILED), range, rows, row => covered(row) && row.status == FAILED);
    SumIsCounted(STATUS(DENIED), range, rows, row => covered(row) && row.status == DENIED);
    SumIsCounted(STATUS(LIMITED), range, rows, row => covered(row) && row.status == LIMITED);
    SumIsCounted(STATUS(COST_LIMITED), range, rows, row => covered(row) && row.status == COST_LIMITED);
  }

  lemma UsageTotalsAreMeant(range: Range, rows: seq<InvocationRow>)
    ensures UsageTotalsMean(TotalsOf(range, rows).usage, range.tenantId, range.start, range.end, rows)
  {
    hide Sum, Counted, Added;
    var covered := (row: InvocationRow) => row.tenantId == range.tenantId && range.start <= row.startedAt < range.end;
    var executed := (row: InvocationRow) => covered(row) && (row.status == SUCCEEDED || row.status == FAILED);
    var counted := (row: InvocationRow) => row.inputUnits.Some? && row.outputUnits.Some? && row.totalUnits.Some?;
    SumIsAdded(INPUT_UNITS, range, rows, row => if executed(row) && counted(row) then row.inputUnits.value else 0);
    SumIsAdded(OUTPUT_UNITS, range, rows, row => if executed(row) && counted(row) then row.outputUnits.value else 0);
    SumIsAdded(TOTAL_UNITS, range, rows, row => if executed(row) && counted(row) then row.totalUnits.value else 0);
    SumIsCounted(EXECUTED, range, rows, executed);
    SumIsCounted(USAGE_ATTRIBUTED, range, rows, row => executed(row) && counted(row));
    SumIsCounted(USAGE_UNAVAILABLE, range, rows, row => executed(row) && !counted(row));
  }

  lemma CostTotalsAreMeant(range: Range, rows: seq<InvocationRow>)
    ensures CostTotalsMean(TotalsOf(range, rows).cost, range.tenantId, range.start, range.end, rows)
  {
    hide Sum, Counted, Added;
    var succeeded := (row: InvocationRow) =>
      row.tenantId == range.tenantId && range.start <= row.startedAt < range.end && row.status == SUCCEEDED;
    SumIsAdded(COST, range, rows, row => if succeeded(row) && row.cost.total.Some? then row.cost.total.value else 0);
    SumIsCounted(COST_ATTRIBUTED, range, rows, row => succeeded(row) && row.cost.total.Some?);
    SumIsCounted(COST_UNAVAILABLE, range, rows, row => succeeded(row) && row.cost.total.None?);
  }

  /** What a listed group says about the rows with its identity: the agents' or the models'. */
  ghost predicate GroupMeans(g: Group, tenantId: Uuid, start: int, end: int, rows: seq<InvocationRow>,
                             identity: InvocationRow -> Uuid) {
    var own := (row: InvocationRow) => row.tenantId == tenantId && start <= row.startedAt < end && identity(row) == g.id;
    var executed := (row: InvocationRow) => own(row) && (row.status == SUCCEEDED || row.status == FAILED);
    var counted := (row: InvocationRow) => row.inputUnits.Some? && row.outputUnits.Some? && row.totalUnits.Some?;
    var succeeded := (row: InvocationRow) => own(row) && row.status == SUCCEEDED;
    && g.invocations == Counted(rows, own)
    && g.totalUnits == Added(rows, row => if executed(row) && counted(row) then row.totalUnits.value else 0)
    && g.usageAttributed == Counted(rows, row => executed(row) && counted(row))
    && g.usageUnavailable == Counted(rows, row => executed(row) && !counted(row))
    && g.cost == Added(rows, row => if succeeded(row) && row.cost.total.Some? then row.cost.total.value else 0)
    && g.costAttributed == Counted(rows, row => succeeded(row) && row.cost.total.Some?)
    && g.costUnavailable == Counted(rows, row => succeeded(row) && row.cost.total.None?)
  }

  /** The identities of the covered rows. */
  ghost function Identities(tenantId: Uuid, start: int, end: int, rows: seq<InvocationRow>, identity: InvocationRow -> Uuid): set<Uuid> {
    set i | 0 <= i < |rows| && rows[i].tenantId == tenantId && start <= rows[i].startedAt < end :: identity(rows[i])
  }

  /** A listing of at most ten groups of covered rows, the most expensive first and equals by identity. */
  ghost predicate BreakdownMeans(b: Breakdown, tenantId: Uuid, start: int, end: int, rows: seq<InvocationRow>,
                                 identity: InvocationRow -> Uuid) {
    var ids := Identities(tenantId, start, end, rows, identity);
    && (forall k :: 0 <= k < |b.listed| ==>
          b.listed[k].id in ids && GroupMeans(b.listed[k], tenantId, start, end, rows, identity))
    && (forall j, k :: 0 <= j < k < |b.listed| ==>
          || b.listed[j].cost > b.listed[k].cost
          || (b.listed[j].cost == b.listed[k].cost && b.listed[j].id < b.listed[k].id))
    && (forall g: Group, k :: (&& g.id in ids && GroupMeans(g, tenantId, start, end, rows, identity)
                               && 0 <= k < |b.listed| && forall j :: 0 <= j < |b.listed| ==> b.listed[j].id != g.id) ==>
          b.listed[k].cost > g.cost || (b.listed[k].cost == g.cost && b.listed[k].id < g.id))
    && |b.listed| == (if |ids| < 10 then |ids| else 10)
    && (b.truncated <==> |ids| > 10)
    && (!b.truncated ==> forall id :: id in ids ==> exists k :: 0 <= k < |b.listed| && b.listed[k].id == id)
  }

  lemma GroupIsMeant(dimension: Dimension, range: Range, rows: seq<InvocationRow>, identity: InvocationRow -> Uuid, id: Uuid)
    requires forall row :: identity(row) == Key(dimension, row)
    ensures GroupMeans(GroupOf(dimension, range, rows, id), range.tenantId, range.start, range.end, rows, identity)
  {
    hide Sum, Counted, Added, Of, Key;
    var own := (row: InvocationRow) =>
      row.tenantId == range.tenantId && range.start <= row.startedAt < range.end && identity(row) == id;
    var executed := (row: InvocationRow) => own(row) && (row.status == SUCCEEDED || row.status == FAILED);
    var counted := (row: InvocationRow) => row.inputUnits.Some? && row.outputUnits.Some? && row.totalUnits.Some?;
    var succeeded := (row: InvocationRow) => own(row) && row.status == SUCCEEDED;
    GroupSumIsCounted(ALL, dimension, range, rows, id, own);
    GroupSumIsAdded(TOTAL_UNITS, dimension, range, rows, id,
                    row => if executed(row) && counted(row) then row.totalUnits.value else 0);
    GroupSumIsCounted(USAGE_ATTRIBUTED, dimension, range, rows, id, row => executed(row) && counted(row));
    GroupSumIsCounted(USAGE_UNAVAILABLE, dimension, range, rows, id, row => executed(row) && !counted(row));
    GroupSumIsAdded(COST, dimension, range, rows, id,
                    row => if succeeded(row) && row.cost.total.Some? then row.cost.total.value else 0);
    GroupSumIsCounted(COST_ATTRIBUTED, dimension, range, rows, id, row => succeeded(row) && row.cost.total.Some?);
    GroupSumIsCounted(COST_UNAVAILABLE, dimension, range, rows, id, row => succeeded(row) && row.cost.total.None?);
  }

  /** The columns determine a group. */
  lemma GroupMeaningIsUnique(a: Group, b: Group, tenantId: Uuid, start: int, end: int, rows: seq<InvocationRow>,
                             identity: InvocationRow -> Uuid)
    requires a.id == b.id
    requires GroupMeans(a, tenantId, start, end, rows, identity) && GroupMeans(b, tenantId, start, end, rows, identity)
    ensures a == b
  {
    hide Counted, Added;
  }

  lemma KeysAreIdentities(dimension: Dimension, range: Range, rows: seq<InvocationRow>, identity: InvocationRow -> Uuid)
    requires forall row :: identity(row) == Key(dimension, row)
    ensures Keys(dimension, range, rows) == Identities(range.tenantId, range.start, range.end, rows, identity)
  {
    hide Key;
    var ids := Identities(range.tenantId, range.start, range.end, rows, identity);
    forall id | id in Keys(dimension, range, rows)
      ensures id in ids
    {
      var row :| row in rows && range.Covers(row) && Key(dimension, row) == id;
      var i :| 0 <= i < |rows| && rows[i] == row;
      assert identity(rows[i]) == id;
    }
    forall id | id in ids
      ensures id in Keys(dimension, range, rows)
    {
      var i :| 0 <= i < |rows| && rows[i].tenantId == range.tenantId && range.start <= rows[i].startedAt < range.end
        && identity(rows[i]) == id;
      assert rows[i] in rows && range.Covers(rows[i]);
    }
  }

  /** One group for each identity of a covered row. */
  ghost predicate GroupingMeans(groups: map<Uuid, Group>, tenantId: Uuid, start: int, end: int, rows: seq<InvocationRow>,
                                identity: InvocationRow -> Uuid) {
    && groups.Keys == Identities(tenantId, start, end, rows, identity)
    && forall id :: id in groups ==> groups[id].id == id && GroupMeans(groups[id], tenantId, start, end, rows, identity)
  }

  lemma GroupingIsMeant(dimension: Dimension, range: Range, rows: seq<InvocationRow>, identity: InvocationRow -> Uuid,
                        order: seq<Uuid>, groups: map<Uuid, Group>)
    requires forall row :: identity(row) == Key(dimension, row)
    requires Grouped(dimension, range, rows, order, groups)
    ensures GroupingMeans(groups, range.tenantId, range.start, range.end, rows, identity)
  {
    hide GroupOf, Keys, GroupMeans, Identities, Key;
    KeysAreIdentities(dimension, range, rows, identity);
    forall id | id in groups
      ensures groups[id].id == id && GroupMeans(groups[id], range.tenantId, range.start, range.end, rows, identity)
    {
      GroupIdentity(dimension, range, rows, id);
      GroupIsMeant(dimension, range, rows, identity, id);
    }
  }

  lemma BreakdownIsMeant(dimension: Dimension, range: Range, rows: seq<InvocationRow>, identity: InvocationRow -> Uuid, b: Breakdown)
    requires forall row :: identity(row) == Key(dimension, row)
    requires IsBreakdown(dimension, range, rows, b)
    ensures BreakdownMeans(b, range.tenantId, range.start, range.end, rows, identity)
  {
    hide GroupOf, Keys, GroupMeans, Identities, Key;
    var ids := Keys(dimension, range, rows);
    KeysAreIdentities(dimension, range, rows, identity);
    forall id: Uuid
      ensures GroupMeans(GroupOf(dimension, range, rows, id), range.tenantId, range.start, range.end, rows, identity)
    {
      GroupIsMeant(dimension, range, rows, identity, id);
    }
    forall k | 0 <= k < |b.listed|
      ensures b.listed[k].id in ids && GroupMeans(b.listed[k], range.tenantId, range.start, range.end, rows, identity)
    {
      assert b.listed[k] in b.listed;
    }
    forall g: Group, k | g.id in ids && GroupMeans(g, range.tenantId, range.start, range.end, rows, identity)
      && 0 <= k < |b.listed| && forall j :: 0 <= j < |b.listed| ==> b.listed[j].id != g.id
      ensures Before(b.listed[k], g)
    {
      GroupIdentity(dimension, range, rows, g.id);
      GroupMeaningIsUnique(g, GroupOf(dimension, range, rows, g.id), range.tenantId, range.start, range.end, rows, identity);
      assert !Lists(b.listed, g.id);
      assert b.listed[k] in b.listed;
    }
    if !b.truncated {
      ListingIsComplete(dimension, range, rows, b);
      forall id | id in ids
        ensures exists k :: 0 <= k < |b.listed| && b.listed[k].id == id
      {
        assert Lists(b.listed, id);
        var g :| g in b.listed && g.id == id;
        var k :| 0 <= k < |b.listed| && b.listed[k] == g;
      }
    }
  }

  /** The three statements of one report each see the rows committed when they run. */
  datatype Reads = Reads(totals: seq<InvocationRow>, agents: seq<InvocationRow>, models: seq<InvocationRow>)

  function ValidatedRange(tenantId: Uuid, start: int, end: int): Result<Range, ReportError> {
    if start >= end || end - start > MAX_REPORT_RANGE then Failure(InvalidReportRange)
    else Success(Range(tenantId, start, end))
  }

  method GetTenantRuntimeReport(tenants: set<Uuid>, tenantId: Uuid, start: int, end: int, seen: Reads)
    returns (r: Result<Report, ReportError>)
    ensures r == Failure(InvalidReportRange) <==> !(start < end <= start + MAX_REPORT_RANGE)
    ensures r == Failure(TenantNotFound) <==> start < end <= start + MAX_REPORT_RANGE && tenantId !in tenants
    ensures r.Success? ==>
              var range := Range(tenantId, start, end);
              && r.value.totals == TotalsOf(range, seen.totals)
              && IsBreakdown(AGENT, range, seen.agents, r.value.agents)
              && IsBreakdown(MODEL, range, seen.models, r.value.models)
    ensures r.Success? ==>
              && InvocationCountsMean(r.value.totals.invocations, tenantId, start, end, seen.totals)
              && UsageTotalsMean(r.value.totals.usage, tenantId, start, end, seen.totals)
              && CostTotalsMean(r.value.totals.cost, tenantId, start, end, seen.totals)
              && BreakdownMeans(r.value.agents, tenantId, start, end, seen.agents, (row: InvocationRow) => row.agentId)
              && BreakdownMeans(r.value.models, tenantId, start, end, seen.models, (row: InvocationRow) => row.modelId)
  {
    hide TotalsOf, IsBreakdown, InvocationCountsMean, UsageTotalsMean, CostTotalsMean, BreakdownMeans;
    var range :- ValidatedRange(tenantId, start, end);
    if tenantId !in tenants {
      return Failure(TenantNotFound);
    }
    var totals := AggregateTotals(range, seen.totals);
    var agents := BreakDown(AGENT, range, seen.agents);
    var models := BreakDown(MODEL, range, seen.models);
    r := Success(Report(totals, agents, models));
  }

  /** A breakdown that is not truncated accounts for every aggregate of the report, when all three
      statements saw the same rows; in general it accounts for at least the earlier totals. */
  lemma UntruncatedBreakdownAddsUp(m: Measure, dimension: Dimension, range: Range, earlier: seq<InvocationRow>,
                                   rows: seq<InvocationRow>, b: Breakdown)
    requires earlier <= rows && forall row :: row in rows ==> CountsUp(row)
    requires IsBreakdown(dimension, range, rows, b) && !b.truncated
    ensures var ids := seq(|b.listed|, i requires 0 <= i < |b.listed| => b.listed[i].id);
            && SumOverGroups(m, dimension, range, rows, ids) == Sum(m, range, rows)
            && Sum(m, range, earlier) <= SumOverGroups(m, dimension, range, rows, ids)
  {
    hide Sum, Of, Value, CountsUp, GroupOf, Keys, SumOverGroups, Before;
    var ids := seq(|b.listed|, i requires 0 <= i < |b.listed| => b.listed[i].id);
    ListingIsDistinct(dimension, range, rows, b);
    ListingIsComplete(dimension, range, rows, b);
    forall id | id in Keys(dimension, range, rows)
      ensures id in ids
    {
      var g :| g in b.listed && g.id == id;
      var i :| 0 <= i < |b.listed| && b.listed[i] == g;
      assert ids[i] == id;
    }
    GroupTotalsAreConserved(m, dimension, range, rows, ids);
    LaterReadsReportMore(m, range, earlier, rows);
  }

  lemma ListingIsDistinct(dimension: Dimension, range: Range, rows: seq<InvocationRow>, b: Breakdown)
    requires IsBreakdown(dimension, range, rows, b)
    ensures forall i, j :: 0 <= i < j < |b.listed| ==> b.listed[i].id != b.listed[j].id
  {
    hide GroupOf, Keys, Before;
    forall i, j | 0 <= i < j < |b.listed|
      ensures b.listed[i].id != b.listed[j].id
    {
      BeforeIsTotal(b.listed[i], b.listed[j], b.listed[i]);
      assert Before(b.listed[i], b.listed[j]);
      assert b.listed[i] in b.listed && b.listed[j] in b.listed;
    }
  }

  /** Nothing is missing from a listing that is not truncated. */
  lemma ListingIsComplete(dimension: Dimension, range: Range, rows: seq<InvocationRow>, b: Breakdown)
    requires IsBreakdown(dimension, range, rows, b) && !b.truncated
    ensures forall id :: id in Keys(dimension, range, rows) ==> Lists(b.listed, id)
  {
    hide GroupOf, Keys, Before;
    ListingIsDistinct(dimension, range, rows, b);
    var ids := seq(|b.listed|, i requires 0 <= i < |b.listed| => b.listed[i].id);
    var listed := set id | id in ids;
    DistinctLength(ids, listed);
    assert listed <= Keys(dimension, range, rows) by {
      forall id | id in listed
        ensures id in Keys(dimension, range, rows)
      {
        var i :| 0 <= i < |ids| && ids[i] == id;
        assert b.listed[i] in b.listed;
      }
    }
    SubsetSize(listed, Keys(dimension, range, rows));
    forall id | id in Keys(dimension, range, rows)
      ensures Lists(b.listed, id)
    {
      var i :| 0 <= i < |ids| && ids[i] == id;
      assert b.listed[i] in b.listed && b.listed[i].id == id;
    }
  }

  // Over whole runs

  /** Costs belong to succeeded rows and nothing counts down. */
  predicate Reportable(row: InvocationRow) {
    CostOnlyWhenSucceeded(row) && CountsUp(row)
  }

  lemma StepKeepsReportable(config: Config, s: State, e: Event)
    requires config.Valid() && Enabled(config, s, e) && CallsOk(s) && forall row :: row in s.ledger ==> Reportable(row)
    ensures s.ledger <= Apply(config, s, e).ledger
    ensures forall row :: row in Apply(config, s, e).ledger ==> Reportable(row)
  {
    hide Store, Insertable, Valid, Reportable;
    LedgerGrowsOnlyByPersist(config, s, e);
    if e.Persist? {
      assert CallOk(s, e.id);
      NewRowsAreReportable(s.calls[e.id].phase.invocation);
    }
  }

  lemma NewRowsAreReportable(v: Invocation)
    requires Valid(v) && Insertable(Store(v))
    ensures Reportable(Store(v))
  {
    hide Store, Insertable, Valid, CountsUp, CostOnlyWhenSucceeded;
    StoredRowsCountUp(v);
    StoredCostOnlyWhenSucceeded(v);
  }

  /** From a reportable ledger, an empty one say, every run keeps the ledger reportable and only adds to it. */
  lemma {:induction false} RunKeepsReportable(config: Config, run: seq<State>, events: seq<Event>, i: nat, j: nat)
    requires IsRun(config, run, events) && Initial(run[0]) && i <= j < |run|
    requires forall row :: row in run[0].ledger ==> Reportable(row)
    ensures forall row :: row in run[j].ledger ==> Reportable(row)
    ensures run[i].ledger <= run[j].ledger
    decreases j, i
  {
    hide Apply, Enabled, Reportable, CallsOk, Initial;
    if i < j {
      RunKeepsReportable(config, run, events, i, j - 1);
      RunKeepsCallsOk(config, run, events, j - 1);
      RunStep(config, run, events, j - 1);
      StepKeepsReportable(config, run[j - 1], events[j - 1]);
    } else if j > 0 {
      RunKeepsReportable(config, run, events, 0, j);
    }
  }

  /** In every interleaving and at every moment, the estimated total that a report of a UTC day shows
      is the sum that the cost gate would read for that day, with nothing assumed of the new rows. */
  lemma ReportsAgreeOverRuns(config: Config, run: seq<State>, events: seq<Event>, i: nat, tenantId: Uuid, at: int)
    requires IsRun(config, run, events) && Initial(run[0]) && i < |run|
    requires forall row :: row in run[0].ledger ==> Reportable(row)
    ensures var day := UtcDayWindow(at);
            TotalsOf(Range(tenantId, day.start, day.end), run[i].ledger).cost.total ==
            Consumption(CostMeter(tenantId, day), run[i].ledger)
  {
    hide Apply, Enabled, Initial, TotalsOf, Consumption, UtcDayWindow, CostOnlyWhenSucceeded, CountsUp;
    RunKeepsReportable(config, run, events, 0, i);
    ReportAgreesWithBudgetGate(tenantId, at, run[i].ledger);
  }

  /** In every interleaving a report taken later shows no less, and an untruncated breakdown accounts
      for every total of its own rows and of every earlier moment. */
  lemma ReportsGrowOverRuns(config: Config, run: seq<State>, events: seq<Event>, i: nat, j: nat, m: Measure,
                            dimension: Dimension, range: Range, b: Breakdown)
    requires IsRun(config, run, events) && Initial(run[0]) && i <= j < |run|
    requires forall row :: row in run[0].ledger ==> Reportable(row)
    ensures Sum(m, range, run[i].ledger) <= Sum(m, range, run[j].ledger)
    ensures IsBreakdown(dimension, range, run[j].ledger, b) && !b.truncated ==>
              var ids := seq(|b.listed|, k requires 0 <= k < |b.listed| => b.listed[k].id);
              SumOverGroups(m, dimension, range, run[j].ledger, ids) == Sum(m, range, run[j].ledger)
  {
    hide Apply, Enabled, Initial, Sum, SumOverGroups, IsBreakdown, CostOnlyWhenSucceeded, CountsUp;
    RunKeepsReportable(config, run, events, i, j);
    LaterReadsReportMore(m, range, run[i].ledger, run[j].ledger);
    if IsBreakdown(dimension, range, run[j].ledger, b) && !b.truncated {
      UntruncatedBreakdownAddsUp(m, dimension, range, run[i].ledger, run[j].ledger, b);
    }
  }
}
