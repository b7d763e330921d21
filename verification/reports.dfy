/** The aggregations computed inside `main()` of dashboard_app.py on the
    filtered table: KPIs, leaderboards, the month x weekday heatmap, return
    rates, year-over-year growth, average order value and order sizes.
    Charts, captions and number formatting are not modelled. */
module Reports {
  import opened Wrappers
  import opened Seqs
  import opened Rationals
  import opened Ranking
  import opened Transactions

  // ---------------------------------------------------------------------------
  // KPIs

  datatype Kpis = Kpis(revenue: int, orders: nat, customers: nat)

  /** Total revenue, number of distinct invoices, number of distinct
      non-null customer IDs (`nunique` ignores NaN). */
  function KeyIndicators(t: Table): (k: Kpis)
    ensures k.revenue == Sum(t, Revenue)
    ensures k.orders == |KeysOf(t, InvoiceOf)|
    ensures k.customers == |KeysOf(Filter(t, HasCustomer), CustomerOf)|
    ensures k.revenue == Sum(Filter(t, HasCustomer), Revenue) + Sum(Filter(t, Negate(HasCustomer)), Revenue)
    ensures k.orders <= |t|
    ensures k.orders == 0 <==> t == []
    ensures k.customers <= |Filter(t, HasCustomer)|
    ensures k.customers == 0 <==> forall x :: x in t ==> x.customer.None?
    ensures None !in KeysOf(Filter(t, HasCustomer), CustomerOf)
  {
    var withId := Filter(t, HasCustomer);
    SumSplit(t, Revenue, HasCustomer);
    KeysOfBound(t, InvoiceOf);
    KeysOfBound(withId, CustomerOf);
    GuestsOnly(t);
    Kpis(Sum(t, Revenue), |KeysOf(t, InvoiceOf)|, |KeysOf(withId, CustomerOf)|)
  }

  lemma GuestsOnly(t: Table)
    ensures (forall x :: x in t ==> x.customer.None?) <==> Filter(t, HasCustomer) == []
  {
    if forall x :: x in t ==> x.customer.None? {
      FilterNone(t, HasCustomer);
    } else {
      var x :| x in t && x.customer.Some?;
      assert x in Filter(t, HasCustomer);
    }
  }

  /** One more line item adds its total to the revenue, counts one more
      order exactly when its invoice is new, and one more customer exactly
      when it carries an ID not seen before. */
  lemma KeyIndicatorsAppend(t: Table, x: Txn)
    ensures KeyIndicators(t + [x]).revenue == KeyIndicators(t).revenue + x.total
    ensures KeyIndicators(t + [x]).orders ==
              KeyIndicators(t).orders + (if exists y :: y in t && y.invoice == x.invoice then 0 else 1)
    ensures KeyIndicators(t + [x]).customers ==
              KeyIndicators(t).customers + (if x.customer.Some? && !exists y :: y in t && y.customer == x.customer then 1 else 0)
  {
    SumAppend(t, x, Revenue);
    KeysOfAppendCard(t, x, InvoiceOf);
    CustomerKeysAppend(t, x);
  }

  lemma CustomerKeysAppend(t: Table, x: Txn)
    ensures |KeysOf(Filter(t + [x], HasCustomer), CustomerOf)| ==
              |KeysOf(Filter(t, HasCustomer), CustomerOf)| +
              (if x.customer.Some? && !exists y :: y in t && y.customer == x.customer then 1 else 0)
  {
    FilterAppend(t, x, HasCustomer);
    var withId := Filter(t, HasCustomer);
    if x.customer.Some? {
      assert Filter(t + [x], HasCustomer) == withId + [x];
      KeysOfAppendCard(withId, x, CustomerOf);
      SameCustomerSeen(t, x);
    } else {
      assert Filter(t + [x], HasCustomer) == withId;
    }
  }

  /** For a row with an ID, an earlier row of that customer is one with an ID. */
  lemma SameCustomerSeen(t: Table, x: Txn)
    requires x.customer.Some?
    ensures (exists y :: y in Filter(t, HasCustomer) && CustomerOf(y) == CustomerOf(x)) <==>
            (exists y :: y in t && y.customer == x.customer)
  {
    var withId := Filter(t, HasCustomer);
    if exists y :: y in t && y.customer == x.customer {
      var y :| y in t && y.customer == x.customer;
      var i :| 0 <= i < |t| && t[i] == y;
      assert HasCustomer(t[i]);
      assert y in withId;
    }
    if exists y :: y in withId && CustomerOf(y) == CustomerOf(x) {
      var y :| y in withId && CustomerOf(y) == CustomerOf(x);
      var i :| 0 <= i < |withId| && withId[i] == y;
      assert y in t;
    }
  }

  /** Guest rows do not change the customer count. */
  lemma CustomersIgnoreGuests(t: Table)
    ensures KeyIndicators(Filter(t, HasCustomer)).customers == KeyIndicators(t).customers
  {
    FilterTwice(t, HasCustomer);
  }

  // ---------------------------------------------------------------------------
  // Leaderboards: groupby(...).sum().sort_values(ascending=False).head(n)

  predicate IntLe(a: int, b: int) {
    a <= b
  }

  lemma IntLeIsTotalPreorder()
    ensures TotalPreorder(IntLe)
  {
  }

  lemma RatioLeIsTotalPreorder()
    ensures TotalPreorder(RatioLe)
  {
    forall a, b, c | RatioLe(a, b) && RatioLe(b, c)
      ensures RatioLe(a, c)
    {
      RatioLeTransitive(a, b, c);
    }
  }

  function ProductRevenue(t: Table): map<string, int> {
    GroupSum(t, DescriptionOf, Revenue)
  }

  function CountryRevenue(t: Table): map<string, int> {
    GroupSum(t, CountryOf, Revenue)
  }

  /** Grouping by Customer ID drops the rows whose ID is missing. */
  function CustomerRevenue(t: Table): map<Option<string>, int> {
    GroupSum(Filter(t, HasCustomer), CustomerOf, Revenue)
  }

  /** The "Top 10 Products by Revenue" bars. */
  method TopProducts(t: Table) returns (board: seq<(string, int)>)
    ensures IsLeaderboard(board, ProductRevenue(t), 10, IntLe)
  {
    IntLeIsTotalPreorder();
    board := TopN(ProductRevenue(t), 10, IntLe);
  }

  /** The "Revenue Distribution by Product" pie: the same ten products,
      computed afresh. */
  method RevenueDistribution(t: Table) returns (slices: seq<(string, int)>)
    ensures IsLeaderboard(slices, ProductRevenue(t), 10, IntLe)
  {
    IntLeIsTotalPreorder();
    slices := TopN(ProductRevenue(t), 10, IntLe);
  }

  /** The "Top 15 Countries by Revenue" bars. */
  method TopCountries(t: Table) returns (board: seq<(string, int)>)
    ensures IsLeaderboard(board, CountryRevenue(t), 15, IntLe)
  {
    IntLeIsTotalPreorder();
    board := TopN(CountryRevenue(t), 15, IntLe);
  }

  /** The "Top 15 Customers by Revenue" bars; guests never appear. */
  method TopCustomers(t: Table) returns (board: seq<(Option<string>, int)>)
    ensures IsLeaderboard(board, CustomerRevenue(t), 15, IntLe)
    ensures forall i :: 0 <= i < |board| ==> board[i].0.Some?
  {
    IntLeIsTotalPreorder();
    board := TopN(CustomerRevenue(t), 15, IntLe);
  }

  // ---------------------------------------------------------------------------
  // Month x weekday heatmap: pivot_table(..., aggfunc="sum", fill_value=0)

  function MonthOfRow(cal: Calendar): Txn -> int {
    (r: Txn) => cal.month(r.date)
  }

  function DayNameOfRow(cal: Calendar): Txn -> string {
    (r: Txn) => cal.dayName(r.date)
  }

  function MonthDayOfRow(cal: Calendar): Txn -> (int, string) {
    (r: Txn) => (cal.month(r.date), cal.dayName(r.date))
  }

  /** Every pair of a month present and a weekday present. */
  function Grid(t: Table, cal: Calendar): set<(int, string)> {
    set m, d | m in KeysOf(t, MonthOfRow(cal)) && d in KeysOf(t, DayNameOfRow(cal)) :: (m, d)
  }

  /** The pivot: rows are the months present, columns the weekdays present,
      each cell the revenue of that combination or 0 when it has none. */
  function Heatmap(t: Table, cal: Calendar): (h: map<(int, string), int>)
    ensures forall m, d :: (m, d) in h <==> m in KeysOf(t, MonthOfRow(cal)) && d in KeysOf(t, DayNameOfRow(cal))
    ensures forall c :: c in h && c in KeysOf(t, MonthDayOfRow(cal)) ==> h[c] == GroupSum(t, MonthDayOfRow(cal), Revenue)[c]
    ensures forall c :: c in h && c !in KeysOf(t, MonthDayOfRow(cal)) ==> h[c] == 0
  {
    EmptyCellsAreZero(t, cal);
    map c | c in Grid(t, cal) :: Sum(GroupRows(t, MonthDayOfRow(cal), c), Revenue)
  }

  lemma EmptyCellsAreZero(t: Table, cal: Calendar)
    ensures forall c :: c !in KeysOf(t, MonthDayOfRow(cal)) ==> Sum(GroupRows(t, MonthDayOfRow(cal), c), Revenue) == 0
  {
    forall c | c !in KeysOf(t, MonthDayOfRow(cal))
      ensures Sum(GroupRows(t, MonthDayOfRow(cal), c), Revenue) == 0
    {
      FilterNone(t, KeyIs(MonthDayOfRow(cal), c));
    }
  }

  /** The heatmap's cells, each taken once in any order, add up to the
      revenue: every row lands in exactly one cell and the padding is zero. */
  lemma {:induction false} HeatmapAddsUp(t: Table, cal: Calendar, cells: seq<(int, string)>)
    requires Distinct(cells)
    requires Elements(cells) == Grid(t, cal)
    ensures forall i :: 0 <= i < |cells| ==> cells[i] in Heatmap(t, cal)
    ensures SumValues(Heatmap(t, cal), cells) == Sum(t, Revenue)
  {
    var h := Heatmap(t, cal);
    assert forall i :: 0 <= i < |cells| ==> cells[i] in Elements(cells);
    HeatmapCellsPerKey(t, cal, h, cells);
    forall x | x in t
      ensures MonthDayOfRow(cal)(x) in cells
    {
      assert MonthOfRow(cal)(x) in KeysOf(t, MonthOfRow(cal));
      assert DayNameOfRow(cal)(x) in KeysOf(t, DayNameOfRow(cal));
      assert MonthDayOfRow(cal)(x) in Grid(t, cal);
    }
    SumPerKeyCovers(t, MonthDayOfRow(cal), Revenue, cells);
  }

  lemma {:induction false} HeatmapCellsPerKey(t: Table, cal: Calendar, h: map<(int, string), int>, cells: seq<(int, string)>)
    requires h == Heatmap(t, cal)
    requires forall i :: 0 <= i < |cells| ==> cells[i] in h
    ensures SumValues(h, cells) == SumPerKey(t, MonthDayOfRow(cal), Revenue, cells)
  {
    if cells != [] {
      HeatmapCellsPerKey(t, cal, h, cells[1..]);
      EmptyCellsAreZero(t, cal);
    }
  }

  // ---------------------------------------------------------------------------
  // Return / cancellation rate

  /** `Invoice.astype(str).str.startswith("C")`. */
  predicate IsReturn(r: Txn) {
    |r.invoice| > 0 && r.invoice[0] == 'C'
  }

  /** The mean of the return flag over a product's rows. */
  function ReturnRate(g: Table): (rate: Ratio)
    requires g != []
    ensures rate.num == Sum(g, Indicator(IsReturn))
    ensures IsProportion(rate)
    ensures rate.den == |g|
    ensures rate.num == 0 <==> forall x :: x in g ==> !IsReturn(x)
    ensures rate.num == rate.den <==> forall x :: x in g ==> IsReturn(x)
  {
    CountReturns(g);
    CountIsIndicatorSum(g, IsReturn);
    Ratio(|Filter(g, IsReturn)|, |g|)
  }

  lemma CountReturns(g: Table)
    ensures |Filter(g, IsReturn)| <= |g|
    ensures |Filter(g, IsReturn)| == 0 <==> forall x :: x in g ==> !IsReturn(x)
    ensures |Filter(g, IsReturn)| == |g| <==> forall x :: x in g ==> IsReturn(x)
  {
    var cancelled := Filter(g, IsReturn);
    FilterIsSubseq(g, IsReturn);
    SubseqLength(cancelled, g);
    if forall x :: x in g ==> IsReturn(x) {
      FilterAll(g, IsReturn);
    }
    if forall x :: x in g ==> !IsReturn(x) {
      FilterNone(g, IsReturn);
    }
    if |cancelled| > 0 {
      assert cancelled[0] in cancelled;
    }
  }

  function ProductReturnRate(t: Table, d: string): Ratio
    requires d in KeysOf(t, DescriptionOf)
  {
    GroupNonEmpty(t, DescriptionOf, d);
    ReturnRate(GroupRows(t, DescriptionOf, d))
  }

  /** Each product's return rate; every one lies in [0, 1]. */
  function ReturnRates(t: Table): (rates: map<string, Ratio>)
    ensures rates.Keys == KeysOf(t, DescriptionOf)
    ensures forall d :: d in rates ==> IsProportion(rates[d])
    ensures forall d :: d in rates ==> rates[d].den == |GroupRows(t, DescriptionOf, d)|
    ensures forall d :: d in rates ==> rates[d].num == Sum(GroupRows(t, DescriptionOf, d), Indicator(IsReturn))
  {
    map d | d in KeysOf(t, DescriptionOf) :: ProductReturnRate(t, d)
  }

  /** The "Top 10 Products by Return/Cancellation Rate" bars. */
  method TopReturnRates(t: Table) returns (board: seq<(string, Ratio)>)
    ensures IsLeaderboard(board, ReturnRates(t), 10, RatioLe)
    ensures forall i :: 0 <= i < |board| ==> IsProportion(board[i].1)
  {
    RatioLeIsTotalPreorder();
    board := TopN(ReturnRates(t), 10, RatioLe);
  }

  // ---------------------------------------------------------------------------
  // Year-over-year revenue and growth

  /** `pct_change() * 100` at one step: NaN when there is no prior value or
      0 / 0, an infinity when only the prior value is 0. */
  datatype Growth = Undefined | Infinite(up: bool) | Percent(pct: Ratio)

  function PctChange(prev: int, cur: int): (g: Growth)
    ensures g.Percent? <==> prev != 0
    ensures g.Percent? ==> g.pct.num * prev == (cur - prev) * 100 * g.pct.den
    ensures g.Undefined? <==> prev == 0 && cur == 0
    ensures g.Infinite? ==> (g.up <==> cur > 0)
  {
    if prev > 0 then Percent(Ratio((cur - prev) * 100, prev))
    else if prev < 0 then
      assert (prev - cur) * 100 * prev == (cur - prev) * 100 * -prev;
      Percent(Ratio((prev - cur) * 100, -prev))
    else if cur == 0 then Undefined
    else Infinite(cur > 0)
  }

  function YearOfRow(cal: Calendar): Txn -> int {
    (r: Txn) => cal.year(r.date)
  }

  datatype YearRevenue = YearRevenue(year: int, revenue: int, growth: Growth)

  /** `sales_by_year` (sorted by year) alongside `yoy_growth`. */
  function YearOverYear(t: Table, cal: Calendar): (r: seq<YearRevenue>)
    ensures forall i, j :: 0 <= i < j < |r| ==> r[i].year < r[j].year
    ensures forall y :: y in KeysOf(t, YearOfRow(cal)) <==> exists i :: 0 <= i < |r| && r[i].year == y
    ensures forall i :: 0 <= i < |r| ==> r[i].revenue == Sum(GroupRows(t, YearOfRow(cal), r[i].year), Revenue)
    ensures |r| > 0 ==> r[0].growth == Undefined
    ensures forall i :: 0 < i < |r| ==> r[i].growth == PctChange(r[i - 1].revenue, r[i].revenue)
  {
    YearsAreGroups(t, cal);
    YearRowsOrdered(t, cal);
    YearRowsRevenue(t, cal);
    GrowthRows(AscendingKeys(t, YearOfRow(cal)), GroupSum(t, YearOfRow(cal), Revenue))
  }

  lemma YearsAreGroups(t: Table, cal: Calendar)
    ensures forall i :: 0 <= i < |AscendingKeys(t, YearOfRow(cal))| ==>
              AscendingKeys(t, YearOfRow(cal))[i] in GroupSum(t, YearOfRow(cal), Revenue)
  {
    var years := AscendingKeys(t, YearOfRow(cal));
    assert forall i :: 0 <= i < |years| ==> years[i] in years;
  }

  lemma YearRowsOrdered(t: Table, cal: Calendar)
    requires forall i :: 0 <= i < |AscendingKeys(t, YearOfRow(cal))| ==>
               AscendingKeys(t, YearOfRow(cal))[i] in GroupSum(t, YearOfRow(cal), Revenue)
    ensures var r := GrowthRows(AscendingKeys(t, YearOfRow(cal)), GroupSum(t, YearOfRow(cal), Revenue));
            && (forall i, j :: 0 <= i < j < |r| ==> r[i].year < r[j].year)
            && (forall y :: y in KeysOf(t, YearOfRow(cal)) <==> exists i :: 0 <= i < |r| && r[i].year == y)
  {
    var years := AscendingKeys(t, YearOfRow(cal));
    YearRowsFollowKeys(years, KeysOf(t, YearOfRow(cal)), GrowthRows(years, GroupSum(t, YearOfRow(cal), Revenue)));
  }

  lemma YearRowsRevenue(t: Table, cal: Calendar)
    requires forall i :: 0 <= i < |AscendingKeys(t, YearOfRow(cal))| ==>
               AscendingKeys(t, YearOfRow(cal))[i] in GroupSum(t, YearOfRow(cal), Revenue)
    ensures var r := GrowthRows(AscendingKeys(t, YearOfRow(cal)), GroupSum(t, YearOfRow(cal), Revenue));
            forall i :: 0 <= i < |r| ==> r[i].revenue == Sum(GroupRows(t, YearOfRow(cal), r[i].year), Revenue)
  {
  }

  /** Rows listing `years` in order list exactly the years of `keys`, ascending. */
  lemma YearRowsFollowKeys(years: seq<int>, keys: set<int>, r: seq<YearRevenue>)
    requires StrictlyIncreasing(years)
    requires forall y :: y in years <==> y in keys
    requires |r| == |years|
    requires forall i :: 0 <= i < |r| ==> r[i].year == years[i]
    ensures forall i, j :: 0 <= i < j < |r| ==> r[i].year < r[j].year
    ensures forall y :: y in keys <==> exists i :: 0 <= i < |r| && r[i].year == y
  {
    forall y | y in keys
      ensures exists i :: 0 <= i < |r| && r[i].year == y
    {
      var i :| 0 <= i < |years| && years[i] == y;
      assert r[i].year == y;
    }
  }

  /** The year rows for ascending `years`, each with its change from the one before. */
  function GrowthRows(years: seq<int>, sums: map<int, int>): (r: seq<YearRevenue>)
    requires forall i :: 0 <= i < |years| ==> years[i] in sums
    ensures |r| == |years|
    ensures forall i :: 0 <= i < |r| ==> r[i].year == years[i] && r[i].revenue == sums[years[i]]
    ensures |r| > 0 ==> r[0].growth == Undefined
    ensures forall i :: 0 < i < |r| ==> r[i].growth == PctChange(r[i - 1].revenue, r[i].revenue)
  {
    seq(|years|, i requires 0 <= i < |years| =>
      YearRevenue(years[i], sums[years[i]], if i == 0 then Undefined else PctChange(sums[years[i - 1]], sums[years[i]])))
  }

  /** The yearly revenues add up to the total revenue. */
  lemma YearlyRevenueAddsUp(t: Table, cal: Calendar)
    ensures forall i :: 0 <= i < |AscendingKeys(t, YearOfRow(cal))| ==>
              AscendingKeys(t, YearOfRow(cal))[i] in GroupSum(t, YearOfRow(cal), Revenue)
    ensures SumValues(GroupSum(t, YearOfRow(cal), Revenue), AscendingKeys(t, YearOfRow(cal))) == Sum(t, Revenue)
  {
    var years := AscendingKeys(t, YearOfRow(cal));
    assert Elements(years) == KeysOf(t, YearOfRow(cal));
    GroupSumsAddUp(t, YearOfRow(cal), Revenue, years);
  }

  // ---------------------------------------------------------------------------
  // Average order value by month

  function PeriodOfRow(cal: Calendar): Txn -> int {
    (r: Txn) => cal.period(r.date)
  }

  /** Revenue over the number of distinct invoices of a non-empty group. */
  function OrderValue(g: Table): (aov: Ratio)
    requires g != []
    ensures aov.num == KeyIndicators(g).revenue
    ensures aov.den == KeyIndicators(g).orders
    ensures aov.den <= |g|
  {
    KeysOfBound(g, InvoiceOf);
    Ratio(Sum(g, Revenue), |KeysOf(g, InvoiceOf)|)
  }

  function MonthOrderValue(t: Table, cal: Calendar, p: int): Ratio
    requires p in KeysOf(t, PeriodOfRow(cal))
  {
    GroupNonEmpty(t, PeriodOfRow(cal), p);
    OrderValue(GroupRows(t, PeriodOfRow(cal), p))
  }

  /** One average order value per month present; never a division by zero. */
  function AovByMonth(t: Table, cal: Calendar): (aov: map<int, Ratio>)
    ensures aov.Keys == KeysOf(t, PeriodOfRow(cal))
    ensures forall p :: p in aov ==> aov[p].num == GroupSum(t, PeriodOfRow(cal), Revenue)[p]
    ensures forall p :: p in aov ==> aov[p].den == |KeysOf(GroupRows(t, PeriodOfRow(cal), p), InvoiceOf)|
    ensures forall p :: p in aov ==> aov[p].den <= |GroupRows(t, PeriodOfRow(cal), p)|
    // each month's value is that month's KPI revenue over its KPI order count
    ensures forall p :: p in aov ==>
              aov[p].num == KeyIndicators(GroupRows(t, PeriodOfRow(cal), p)).revenue &&
              aov[p].den == KeyIndicators(GroupRows(t, PeriodOfRow(cal), p)).orders
  {
    map p | p in KeysOf(t, PeriodOfRow(cal)) :: MonthOrderValue(t, cal, p)
  }

  /** The numerators of `aov` at the months `ps`, added up. */
  function SumNumerators(aov: map<int, Ratio>, ps: seq<int>): int
    requires forall i :: 0 <= i < |ps| ==> ps[i] in aov
  {
    if ps == [] then 0 else aov[ps[0]].num + SumNumerators(aov, ps[1..])
  }

  /** The monthly AOV numerators, each month once, add up to the revenue. */
  lemma AovRevenueAddsUp(t: Table, cal: Calendar, months: seq<int>)
    requires Distinct(months)
    requires Elements(months) == KeysOf(t, PeriodOfRow(cal))
    ensures forall i :: 0 <= i < |months| ==> months[i] in AovByMonth(t, cal)
    ensures SumNumerators(AovByMonth(t, cal), months) == Sum(t, Revenue)
  {
    GroupSumsAddUp(t, PeriodOfRow(cal), Revenue, months);
    NumeratorsAreGroupSums(t, cal, months);
  }

  lemma {:induction false} NumeratorsAreGroupSums(t: Table, cal: Calendar, months: seq<int>)
    requires forall i :: 0 <= i < |months| ==> months[i] in AovByMonth(t, cal)
    requires forall i :: 0 <= i < |months| ==> months[i] in GroupSum(t, PeriodOfRow(cal), Revenue)
    ensures SumNumerators(AovByMonth(t, cal), months) == SumValues(GroupSum(t, PeriodOfRow(cal), Revenue), months)
  {
    if months != [] {
      NumeratorsAreGroupSums(t, cal, months[1..]);
    }
  }

  // ---------------------------------------------------------------------------
  // Order sizes

  /** `groupby("Invoice")["Quantity"].sum()`: one size per order. */
  function OrderSizes(t: Table): (sizes: map<string, int>)
    ensures sizes.Keys == KeysOf(t, InvoiceOf)
    ensures forall inv :: inv in sizes ==> sizes[inv] == Sum(GroupRows(t, InvoiceOf, inv), Quantity)
    ensures |sizes| == KeyIndicators(t).orders
  {
    var sizes := GroupSum(t, InvoiceOf, Quantity);
    assert sizes.Keys == KeysOf(t, InvoiceOf);
    sizes
  }

  /** The order sizes add up to the total quantity. */
  lemma OrderSizesAddUp(t: Table, invoices: seq<string>)
    requires Distinct(invoices)
    requires Elements(invoices) == KeysOf(t, InvoiceOf)
    ensures forall i :: 0 <= i < |invoices| ==> invoices[i] in OrderSizes(t)
    ensures SumValues(OrderSizes(t), invoices) == Sum(t, Quantity)
  {
    GroupSumsAddUp(t, InvoiceOf, Quantity, invoices);
  }

  // ---------------------------------------------------------------------------
  // Worked examples

  /** An order of two at 5 and its cancellation of one: revenue 5, and the
      product's return rate is one half. */
  lemma ReturnExample()
    ensures var sale := Txn("536365", "WHITE METAL LANTERN", 2, 0, 5, None, "United Kingdom", 10);
            var refund := Txn("C536366", "WHITE METAL LANTERN", -1, 86400, 5, None, "United Kingdom", -5);
            KeyIndicators([sale, refund]).revenue == 5 &&
            "WHITE METAL LANTERN" in ReturnRates([sale, refund]) &&
            SameValue(ReturnRates([sale, refund])["WHITE METAL LANTERN"], Ratio(1, 2))
  {
    var sale := Txn("536365", "WHITE METAL LANTERN", 2, 0, 5, None, "United Kingdom", 10);
    var refund := Txn("C536366", "WHITE METAL LANTERN", -1, 86400, 5, None, "United Kingdom", -5);
    var t := [sale, refund];
    assert sale in t && refund in t;
    assert "WHITE METAL LANTERN" in KeysOf(t, DescriptionOf);
    FilterAll(t, KeyIs(DescriptionOf, "WHITE METAL LANTERN"));
    assert IsReturn(refund) && !IsReturn(sale);
    assert Filter(t, IsReturn) == [refund];
  }

  /** 1000 then 1500 is a 50% rise. */
  lemma GrowthExample()
    ensures PctChange(1000, 1500).Percent?
    ensures SameValue(PctChange(1000, 1500).pct, Ratio(50, 1))
  {
  }
}
