/** The three sidebar filters of dashboard_app.py, applied in order before
    every report: date range, product selection, country selection. */
module SidebarFilters {
  import opened Seqs
  import opened Transactions

  function InDateRange(lo: Timestamp, hi: Timestamp): Txn -> bool {
    (r: Txn) => lo <= r.date <= hi
  }

  /** The date filter. The picker yields zero, one or two dates; only a
      complete pair filters, and both bounds are compared as midnight, so
      the end day itself is included only at its first instant. */
  function FilterByDate(t: Table, range: seq<Date>): (r: Table)
    ensures |range| != 2 ==> r == t
    ensures IsSubseq(r, t)
    ensures |range| == 2 ==> forall x :: x in r <==> x in t && Midnight(range[0]) <= x.date <= Midnight(range[1])
    ensures |range| == 2 ==> forall x ::
              multiset(r)[x] == if Midnight(range[0]) <= x.date <= Midnight(range[1]) then multiset(t)[x] else 0
  {
    if |range| == 2 then
      FilterIsSubseq(t, InDateRange(Midnight(range[0]), Midnight(range[1])));
      FilterCounts(t, InDateRange(Midnight(range[0]), Midnight(range[1])));
      Filter(t, InDateRange(Midnight(range[0]), Midnight(range[1])))
    else
      SubseqReflexive(t);
      t
  }

  /** A sale later on the end day than midnight is dropped, although the
      picker shows that day as included. */
  lemma EndDayIsCutAtMidnight(t: Table, range: seq<Date>, x: Txn)
    requires |range| == 2
    requires x in t
    requires DayOf(x.date) == range[1] && x.date != Midnight(range[1])
    ensures x !in FilterByDate(t, range)
  {
    DayBounds(x.date);
  }

  function ValueIn(field: Txn -> string, chosen: seq<string>): Txn -> bool {
    (r: Txn) => field(r) in chosen
  }

  /** A multiselect filter: an empty selection is falsy and keeps every row;
      otherwise `isin(chosen)`. */
  function FilterBySelection(t: Table, field: Txn -> string, chosen: seq<string>): (r: Table)
    ensures chosen == [] ==> r == t
    ensures IsSubseq(r, t)
    ensures chosen != [] ==> forall x :: x in r <==> x in t && field(x) in chosen
    ensures chosen != [] ==> forall x :: multiset(r)[x] == if field(x) in chosen then multiset(t)[x] else 0
  {
    if chosen == [] then
      SubseqReflexive(t);
      t
    else
      FilterIsSubseq(t, ValueIn(field, chosen));
      FilterCounts(t, ValueIn(field, chosen));
      Filter(t, ValueIn(field, chosen))
  }

  /** The row passes every active filter. */
  predicate Passes(range: seq<Date>, products: seq<string>, countries: seq<string>, x: Txn) {
    && (|range| == 2 ==> Midnight(range[0]) <= x.date <= Midnight(range[1]))
    && (products != [] ==> x.description in products)
    && (countries != [] ==> x.country in countries)
  }

  /** The table every report of one render works on. */
  function ApplyFilters(t: Table, range: seq<Date>, products: seq<string>, countries: seq<string>): (r: Table)
    ensures forall x :: x in r <==> x in t && Passes(range, products, countries, x)
    ensures forall x :: multiset(r)[x] == if Passes(range, products, countries, x) then multiset(t)[x] else 0
    ensures IsSubseq(r, t)
    ensures |r| <= |t|
  {
    var byDate := FilterByDate(t, range);
    var byProduct := FilterBySelection(byDate, DescriptionOf, products);
    var byCountry := FilterBySelection(byProduct, CountryOf, countries);
    SubseqLength(byDate, t);
    SubseqLength(byProduct, byDate);
    SubseqLength(byCountry, byProduct);
    SubseqTransitive(byProduct, byDate, t);
    SubseqTransitive(byCountry, byProduct, t);
    byCountry
  }
}
