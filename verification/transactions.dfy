/** The dashboard's table: one Transaction record per invoice line, money
    in pence, instants in seconds. Group-by over a key column and the fact
    that a group-by sum partitions the total live here too. */
module Transactions {
  import opened Wrappers
  import opened Seqs

  /** An instant, in whole seconds since the epoch (naive local time). */
  type Timestamp = int

  /** A calendar day, numbered from the epoch's day 0. */
  type Date = int

  const SecondsPerDay: int := 86400

  /** `pd.to_datetime(date)`: the first instant (midnight) of the day. */
  function Midnight(d: Date): Timestamp {
    d * SecondsPerDay
  }

  /** The day an instant falls on. */
  function DayOf(ts: Timestamp): Date {
    ts / SecondsPerDay
  }

  lemma DayBounds(ts: Timestamp)
    ensures Midnight(DayOf(ts)) <= ts < Midnight(DayOf(ts) + 1)
  {
  }

  /** One line item: Invoice (prefixed "C" for a cancellation), Description,
      Quantity, InvoiceDate, Price, Customer ID (absent for guests),
      Country and TotalPrice. */
  datatype Txn = Txn(
    invoice: string,
    description: string,
    quantity: int,
    date: Timestamp,
    price: int,
    customer: Option<string>,
    country: string,
    total: int)

  type Table = seq<Txn>

  /** Calendar parts of an instant, computed by the datetime library: year,
      month of the year (1-12), a month period ("2010-12") numbered
      consecutively, and the English weekday name. */
  datatype Calendar = Calendar(
    year: Timestamp -> int,
    month: Timestamp -> int,
    period: Timestamp -> int,
    dayName: Timestamp -> string)

  function Revenue(r: Txn): int { r.total }
  function Quantity(r: Txn): int { r.quantity }
  function InvoiceOf(r: Txn): string { r.invoice }
  function DescriptionOf(r: Txn): string { r.description }
  function CountryOf(r: Txn): string { r.country }
  function CustomerOf(r: Txn): Option<string> { r.customer }
  function HasCustomer(r: Txn): bool { r.customer.Some? }

  /** The rows whose `key` is `k`. */
  function GroupRows<K(==)>(t: Table, key: Txn -> K, k: K): Table {
    Filter(t, KeyIs(key, k))
  }

  /** `df.groupby(key)[f].sum()`: one entry per key present in the table. */
  function GroupSum<K(==)>(t: Table, key: Txn -> K, f: Txn -> int): map<K, int> {
    map k | k in KeysOf(t, key) :: Sum(GroupRows(t, key, k), f)
  }

  /** The sum of the values of `m` at the keys `ks`. */
  function SumValues<K>(m: map<K, int>, ks: seq<K>): int
    requires forall i :: 0 <= i < |ks| ==> ks[i] in m
  {
    if ks == [] then 0 else m[ks[0]] + SumValues(m, ks[1..])
  }

  /** The group sums, taken once per group in any order, add up to the
      column total: a group-by partitions the rows. */
  lemma {:induction false} GroupSumsAddUp<K>(t: Table, key: Txn -> K, f: Txn -> int, ks: seq<K>)
    requires Distinct(ks)
    requires Elements(ks) == KeysOf(t, key)
    ensures forall i :: 0 <= i < |ks| ==> ks[i] in GroupSum(t, key, f)
    ensures SumValues(GroupSum(t, key, f), ks) == Sum(t, f)
  {
    assert forall i :: 0 <= i < |ks| ==> ks[i] in Elements(ks);
    SumValuesPerKey(t, key, f, ks);
    forall x | x in t
      ensures key(x) in ks
    {
      assert key(x) in KeysOf(t, key);
    }
    SumPerKeyCovers(t, key, f, ks);
  }

  lemma {:induction false} SumValuesPerKey<K>(t: Table, key: Txn -> K, f: Txn -> int, ks: seq<K>)
    requires forall i :: 0 <= i < |ks| ==> ks[i] in GroupSum(t, key, f)
    ensures SumValues(GroupSum(t, key, f), ks) == SumPerKey(t, key, f, ks)
  {
    if ks != [] {
      SumValuesPerKey(t, key, f, ks[1..]);
    }
  }
}
