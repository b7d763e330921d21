/** The "Sales: Repeat vs. New Customers" split of dashboard_app.py. A row
    is repeat when it is strictly later than its customer's earliest
    purchase within the filtered table; rows without a customer ID are
    never repeat. The revenue is split in two buckets, both always present. */
module RepeatCustomers {
  import opened Wrappers
  import opened Seqs
  import opened Transactions

  /** The customer IDs present (guests excluded). */
  function Customers(t: Table): set<string> {
    set x | x in t && x.customer.Some? :: x.customer.value
  }

  /** The earliest timestamp of a non-empty group. */
  function Earliest(g: Table): (ts: Timestamp)
    requires g != []
    ensures exists i :: 0 <= i < |g| && g[i].date == ts
    ensures forall i :: 0 <= i < |g| ==> ts <= g[i].date
  {
    if |g| == 1 then g[0].date
    else
      var rest := Earliest(g[1..]);
      if g[0].date <= rest then g[0].date else rest
  }

  /** A customer's rows. */
  function RowsOf(t: Table, c: string): Table {
    GroupRows(t, CustomerOf, Some(c))
  }

  lemma CustomerHasRows(t: Table, c: string)
    requires c in Customers(t)
    ensures RowsOf(t, c) != []
  {
    var x :| x in t && x.customer == Some(c);
    assert Some(c) in KeysOf(t, CustomerOf);
    GroupNonEmpty(t, CustomerOf, Some(c));
  }

  function FirstPurchaseOf(t: Table, c: string): Timestamp
    requires c in Customers(t)
  {
    CustomerHasRows(t, c);
    Earliest(RowsOf(t, c))
  }

  /** `first_purchase`: each customer's earliest InvoiceDate. */
  function FirstPurchase(t: Table): (first: map<string, Timestamp>)
    ensures first.Keys == Customers(t)
    ensures forall c :: c in first ==> exists x :: x in t && x.customer == Some(c) && x.date == first[c]
    ensures forall x :: x in t && x.customer.Some? ==> x.customer.value in first && first[x.customer.value] <= x.date
  {
    forall c | c in Customers(t)
      ensures exists x :: x in t && x.customer == Some(c) && x.date == FirstPurchaseOf(t, c)
    {
      FirstPurchaseAttained(t, c);
    }
    forall x | x in t && x.customer.Some?
      ensures x.customer.value in Customers(t) && FirstPurchaseOf(t, x.customer.value) <= x.date
    {
      FirstPurchaseBelow(t, x);
    }
    map c | c in Customers(t) :: FirstPurchaseOf(t, c)
  }

  lemma FirstPurchaseAttained(t: Table, c: string)
    requires c in Customers(t)
    ensures exists x :: x in t && x.customer == Some(c) && x.date == FirstPurchaseOf(t, c)
  {
    var g := RowsOf(t, c);
    CustomerHasRows(t, c);
    var i :| 0 <= i < |g| && g[i].date == Earliest(g);
    assert g[i] in t && KeyIs(CustomerOf, Some(c))(g[i]);
  }

  lemma FirstPurchaseBelow(t: Table, x: Txn)
    requires x in t && x.customer.Some?
    ensures x.customer.value in Customers(t) && FirstPurchaseOf(t, x.customer.value) <= x.date
  {
    var c := x.customer.value;
    var g := RowsOf(t, c);
    var j :| 0 <= j < |t| && t[j] == x;
    assert KeyIs(CustomerOf, Some(c))(t[j]);
    assert x in g;
    var i :| 0 <= i < |g| && g[i] == x;
  }

  /** `is_repeat(row)`; the lookup's default (the row's own date) makes an
      unknown customer non-repeat. */
  predicate IsRepeat(first: map<string, Timestamp>, x: Txn) {
    match x.customer
    case None => false
    case Some(c) => x.date > (if c in first then first[c] else x.date)
  }

  function RepeatFlag(first: map<string, Timestamp>): Txn -> bool {
    (x: Txn) => IsRepeat(first, x)
  }

  /** A row is repeat exactly when the same customer bought strictly earlier
      in the table; so guests, each customer's earliest rows and customers
      with a single purchase are never repeat. */
  lemma RepeatIffEarlierPurchase(t: Table, x: Txn)
    requires x in t
    ensures IsRepeat(FirstPurchase(t), x) <==>
            x.customer.Some? && exists y :: y in t && y.customer == x.customer && y.date < x.date
  {
    var first := FirstPurchase(t);
    if x.customer.Some? {
      var c := x.customer.value;
      if IsRepeat(first, x) {
        var y :| y in t && y.customer == Some(c) && y.date == first[c];
        assert y.date < x.date;
      }
    }
  }

  /** `reindex(keys, fill_value=0)`: exactly the keys listed, missing ones filled. */
  function Reindex<K(==)>(m: map<K, int>, keys: set<K>, fill: int): (r: map<K, int>)
    ensures r.Keys == keys
    ensures forall k :: k in keys && k in m ==> r[k] == m[k]
    ensures forall k :: k in keys && k !in m ==> r[k] == fill
  {
    map k | k in keys :: if k in m then m[k] else fill
  }

  /** The revenue of the non-repeat (false) and repeat (true) rows. */
  function RepeatSplit(t: Table): (split: map<bool, int>)
    ensures split.Keys == {false, true}
    ensures split[true] == Sum(Filter(t, RepeatFlag(FirstPurchase(t))), Revenue)
    ensures split[false] == Sum(Filter(t, Negate(RepeatFlag(FirstPurchase(t)))), Revenue)
    ensures split[false] + split[true] == Sum(t, Revenue)
  {
    var flag := RepeatFlag(FirstPurchase(t));
    BucketSums(t, flag);
    Reindex(GroupSum(t, flag, Revenue), {false, true}, 0)
  }

  /** The group sum under a boolean key, zero-filled, is the sum over the
      rows where the flag holds (resp. fails). */
  lemma BucketSums(t: Table, flag: Txn -> bool)
    ensures var m := Reindex(GroupSum(t, flag, Revenue), {false, true}, 0);
            && m[true] == Sum(Filter(t, flag), Revenue)
            && m[false] == Sum(Filter(t, Negate(flag)), Revenue)
            && m[false] + m[true] == Sum(t, Revenue)
  {
    FilterSame(t, KeyIs(flag, true), flag);
    FilterSame(t, KeyIs(flag, false), Negate(flag));
    if true !in KeysOf(t, flag) {
      FilterNone(t, flag);
    }
    if false !in KeysOf(t, flag) {
      FilterNone(t, Negate(flag));
    }
    SumSplit(t, Revenue, flag);
  }

  lemma {:induction false} FilterSame(s: Table, p: Txn -> bool, q: Txn -> bool)
    requires forall x :: p(x) == q(x)
    ensures Filter(s, p) == Filter(s, q)
  {
    if s != [] {
      FilterSame(s[1..], p, q);
    }
  }

  /** Day 1 then day 5 for one customer, and a guest on day 5. */
  function ExampleTable(): Table {
    [ Txn("536365", "LANTERN", 1, Midnight(1), 300, Some("17850"), "United Kingdom", 300),
      Txn("536400", "LANTERN", 2, Midnight(5), 300, Some("17850"), "United Kingdom", 600),
      Txn("536401", "LANTERN", 1, Midnight(5), 300, None, "United Kingdom", 300) ]
  }

  lemma ExampleFirstPurchase()
    ensures "17850" in FirstPurchase(ExampleTable())
    ensures FirstPurchase(ExampleTable())["17850"] == Midnight(1)
  {
    EarliestOfExample(FirstPurchase(ExampleTable()));
  }

  /** Any first-purchase map of the example table dates customer 17850 at day 1. */
  lemma EarliestOfExample(fp: map<string, Timestamp>)
    requires fp.Keys == Customers(ExampleTable())
    requires forall c :: c in fp ==> exists x :: x in ExampleTable() && x.customer == Some(c) && x.date == fp[c]
    requires forall x :: x in ExampleTable() && x.customer.Some? ==> x.customer.value in fp && fp[x.customer.value] <= x.date
    ensures "17850" in fp && fp["17850"] == Midnight(1)
  {
    var t := ExampleTable();
    assert t[0] in t;
    var y :| y in t && y.customer == Some("17850") && y.date == fp["17850"];
    var j :| 0 <= j < |t| && t[j] == y;
  }

  /** Only the customer's second purchase is repeat; half the revenue is repeat. */
  lemma SecondPurchaseExample()
    ensures var t := ExampleTable();
            && !IsRepeat(FirstPurchase(t), t[0])
            && IsRepeat(FirstPurchase(t), t[1])
            && !IsRepeat(FirstPurchase(t), t[2])
            && RepeatSplit(t)[true] == 600
            && RepeatSplit(t)[false] == 600
  {
    ExampleFirstPurchase();
    ExampleBuckets(FirstPurchase(ExampleTable()));
  }

  lemma ExampleBuckets(fp: map<string, Timestamp>)
    requires "17850" in fp && fp["17850"] == Midnight(1)
    ensures var t := ExampleTable();
            && !IsRepeat(fp, t[0]) && IsRepeat(fp, t[1]) && !IsRepeat(fp, t[2])
            && Sum(Filter(t, RepeatFlag(fp)), Revenue) == 600
            && Sum(Filter(t, Negate(RepeatFlag(fp))), Revenue) == 600
  {
    ExampleRepeatRows(fp);
    ExampleNewRows(fp);
  }

  lemma ExampleRepeatRows(fp: map<string, Timestamp>)
    requires "17850" in fp && fp["17850"] == Midnight(1)
    ensures Filter(ExampleTable(), RepeatFlag(fp)) == [ExampleTable()[1]]
  {
    var t := ExampleTable();
    var flag := RepeatFlag(fp);
    assert !flag(t[0]) && flag(t[1]) && !flag(t[2]);
    assert t[1..] == [t[1], t[2]] && t[2..] == [t[2]];
    assert Filter(t[2..], flag) == [];
  }

  lemma ExampleNewRows(fp: map<string, Timestamp>)
    requires "17850" in fp && fp["17850"] == Midnight(1)
    ensures Filter(ExampleTable(), Negate(RepeatFlag(fp))) == [ExampleTable()[0], ExampleTable()[2]]
  {
    var t := ExampleTable();
    var flag := Negate(RepeatFlag(fp));
    assert flag(t[0]) && !flag(t[1]) && flag(t[2]);
    assert t[1..] == [t[1], t[2]] && t[2..] == [t[2]] && t[2..][1..] == [];
    assert Filter(t[2..], flag) == [t[2]] + Filter(t[2..][1..], flag);
    assert Filter(t[1..], flag) == [t[2]];
    assert Filter(t, flag) == [t[0]] + Filter(t[1..], flag);
  }
}
