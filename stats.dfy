/** `get_orders_stats`: totals over the paid orders and the best-selling products.
    The SQL query leaves the order of products with equal counts open, so what it
    may return is stated as a predicate (IsTopProducts) and the model's choice is
    proved to be one of the answers it allows. */
module Stats {
  import opened Database
  import Stock

  /** One row of `top_products`: a product name, its paid orders and their total. */
  datatype Group = Group(name: string, count: nat, revenue: real)

  datatype OrderStats = OrderStats(totalRevenue: real, totalOrders: nat, topProducts: seq<Group>)

  const TopLimit := 5

  /** `WHERE status = 'paid'`, in table order: every paid row as often as the
      table holds it, and no other row. */
  function PaidOrders(rows: seq<Order>): (r: seq<Order>)
    ensures |r| <= |rows|
    ensures forall o :: o in r <==> o in rows && o.status == Paid
    ensures forall o :: multiset(r)[o] == if o.status == Paid then multiset(rows)[o] else 0
  {
    if rows == [] then []
    else
      var rest := PaidOrders(rows[..|rows| - 1]);
      var r := if rows[|rows| - 1].status == Paid then rest + [rows[|rows| - 1]] else rest;
      FilterStep(rows[..|rows| - 1], rows[|rows| - 1], rows, rest, r);
      r
  }

  /** One step of the filter: keeping the paid last row, or dropping an unpaid one,
      extends what the filter promises from the leading rows to all of them. */
  lemma FilterStep(init: seq<Order>, last: Order, rows: seq<Order>, rest: seq<Order>, r: seq<Order>)
    requires rows == init + [last]
    requires |rest| <= |init|
    requires forall o :: o in rest <==> o in init && o.status == Paid
    requires forall o :: multiset(rest)[o] == if o.status == Paid then multiset(init)[o] else 0
    requires r == if last.status == Paid then rest + [last] else rest
    ensures |r| <= |rows|
    ensures forall o :: o in r <==> o in rows && o.status == Paid
    ensures forall o :: multiset(r)[o] == if o.status == Paid then multiset(rows)[o] else 0
  {
    assert multiset(rows) == multiset(init) + multiset{last};
    if last.status == Paid {
      assert multiset(r) == multiset(rest) + multiset{last};
    }
  }

  /** `SUM(price)`; SQL gives NULL on no rows and the code turns that into 0. */
  function Revenue(rows: seq<Order>): real {
    if rows == [] then 0.0 else Revenue(rows[..|rows| - 1]) + rows[|rows| - 1].price
  }

  /** `COUNT(*)` of the rows named `name`. */
  function CountOf(rows: seq<Order>, name: string): nat {
    if rows == [] then 0
    else CountOf(rows[..|rows| - 1], name) + (if rows[|rows| - 1].productName == name then 1 else 0)
  }

  /** `SUM(price)` of the rows named `name`. */
  function RevenueOf(rows: seq<Order>, name: string): real {
    if rows == [] then 0.0
    else RevenueOf(rows[..|rows| - 1], name) + (if rows[|rows| - 1].productName == name then rows[|rows| - 1].price else 0.0)
  }

  predicate Distinct(names: seq<string>) {
    forall i, j :: 0 <= i < j < |names| ==> names[i] != names[j]
  }

  /** The `GROUP BY product_name` keys, each once, in order of first appearance. */
  function Names(rows: seq<Order>): (r: seq<string>)
    ensures Distinct(r)
    ensures forall nm :: nm in r <==> exists i :: 0 <= i < |rows| && rows[i].productName == nm
  {
    if rows == [] then []
    else
      var init := rows[..|rows| - 1];
      var n := Names(init);
      var nm := rows[|rows| - 1].productName;
      assert forall i :: 0 <= i < |init| ==> init[i] == rows[i];
      if nm in n then n else n + [nm]
  }

  /** The groups of the paid orders, one per name. */
  function Groups(paid: seq<Order>): (r: seq<Group>)
    ensures |r| == |Names(paid)|
    ensures forall i :: 0 <= i < |r| ==>
      r[i] == Group(Names(paid)[i], CountOf(paid, Names(paid)[i]), RevenueOf(paid, Names(paid)[i]))
  {
    var names := Names(paid);
    seq(|names|, i requires 0 <= i < |names| => Group(names[i], CountOf(paid, names[i]), RevenueOf(paid, names[i])))
  }

  predicate ByCountDesc(gs: seq<Group>) {
    forall i, j :: 0 <= i < j < |gs| ==> gs[i].count >= gs[j].count
  }

  predicate NamesDistinct(gs: seq<Group>) {
    forall i, j :: 0 <= i < j < |gs| ==> gs[i].name != gs[j].name
  }

  /** Put `g` in place in a list sorted by count, descending. */
  function Insert(g: Group, gs: seq<Group>): (r: seq<Group>)
    ensures |r| == |gs| + 1
    ensures multiset(r) == multiset(gs) + multiset{g}
  {
    if gs == [] || g.count >= gs[0].count then [g] + gs
    else
      assert gs == [gs[0]] + gs[1..];
      [gs[0]] + Insert(g, gs[1..])
  }

  lemma {:induction false} InsertSorted(g: Group, gs: seq<Group>)
    requires ByCountDesc(gs)
    ensures ByCountDesc(Insert(g, gs))
    decreases |gs|
  {
    if gs != [] && g.count < gs[0].count {
      var rest := Insert(g, gs[1..]);
      InsertSorted(g, gs[1..]);
      forall x | x in rest ensures x.count <= gs[0].count {
        InMultiset(x, rest, gs[1..], g);
        if x != g {
          var k :| 0 <= k < |gs[1..]| && gs[1..][k] == x;
          assert gs[k + 1] == x;
        }
      }
      ConsSorted(gs[0], rest);
    }
  }

  lemma {:induction false} InsertDistinct(g: Group, gs: seq<Group>)
    requires NamesDistinct(gs) && forall x :: x in gs ==> x.name != g.name
    ensures NamesDistinct(Insert(g, gs))
    decreases |gs|
  {
    if gs == [] || g.count >= gs[0].count {
      ConsSorted(g, gs);
    } else {
      var rest := Insert(g, gs[1..]);
      assert forall x :: x in gs[1..] ==> x in gs;
      InsertDistinct(g, gs[1..]);
      forall x | x in rest ensures x.name != gs[0].name {
        InMultiset(x, rest, gs[1..], g);
        if x != g {
          var k :| 0 <= k < |gs[1..]| && gs[1..][k] == x;
          assert gs[k + 1] == x;
        }
      }
      ConsSorted(gs[0], rest);
    }
  }

  /** Membership in a list whose multiset is another's plus one element. */
  lemma InMultiset<T>(x: T, r: seq<T>, s: seq<T>, g: T)
    requires multiset(r) == multiset(s) + multiset{g}
    ensures x in r <==> x == g || x in s
  {
    assert x in r <==> x in multiset(r);
    assert x in s <==> x in multiset(s);
  }

  /** A head at least as large as everything after it keeps a sorted list sorted;
      one whose name is not among the others keeps the names distinct. */
  lemma ConsSorted(h: Group, rest: seq<Group>)
    ensures ByCountDesc(rest) && (forall x :: x in rest ==> x.count <= h.count) ==> ByCountDesc([h] + rest)
    ensures NamesDistinct(rest) && (forall x :: x in rest ==> x.name != h.name) ==> NamesDistinct([h] + rest)
  {
    var r := [h] + rest;
    assert forall j :: 1 <= j < |r| ==> r[j] == rest[j - 1] && r[j] in rest;
  }

  /** `ORDER BY count DESC`: insertion sort. */
  function SortByCount(gs: seq<Group>): (r: seq<Group>)
    ensures |r| == |gs| && multiset(r) == multiset(gs)
  {
    if gs == [] then []
    else
      assert gs == [gs[0]] + gs[1..];
      Insert(gs[0], SortByCount(gs[1..]))
  }

  /** The sort orders by count. */
  lemma {:induction false} SortSorted(gs: seq<Group>)
    ensures ByCountDesc(SortByCount(gs))
    decreases |gs|
  {
    if gs != [] {
      SortSorted(gs[1..]);
      InsertSorted(gs[0], SortByCount(gs[1..]));
    }
  }

  /** The sort loses and adds nothing. */
  lemma SortMembers(gs: seq<Group>)
    ensures forall x :: x in SortByCount(gs) <==> x in gs
  {
    forall x ensures x in SortByCount(gs) <==> x in gs {
      assert x in SortByCount(gs) <==> x in multiset(SortByCount(gs));
      assert x in gs <==> x in multiset(gs);
    }
  }

  /** The sort keeps distinct names distinct. */
  lemma {:induction false} SortDistinct(gs: seq<Group>)
    requires NamesDistinct(gs)
    ensures NamesDistinct(SortByCount(gs))
    decreases |gs|
  {
    if gs != [] {
      var rest := SortByCount(gs[1..]);
      assert NamesDistinct(gs[1..]);
      SortDistinct(gs[1..]);
      SortMembers(gs[1..]);
      forall x | x in rest ensures x.name != gs[0].name {
        var k :| 0 <= k < |gs[1..]| && gs[1..][k] == x;
        assert gs[k + 1] == x;
      }
      InsertDistinct(gs[0], rest);
    }
  }

  /** `get_orders_stats`. */
  function OrdersStats(rows: seq<Order>): OrderStats {
    var paid := PaidOrders(rows);
    var sorted := SortByCount(Groups(paid));
    OrderStats(Revenue(paid), |paid|, sorted[..Stock.Min(TopLimit, |sorted|)])
  }

  /** What `GROUP BY product_name ORDER BY count DESC LIMIT 5` may return: distinct
      names of paid orders, each with its exact count and total, sorted by count,
      as many as there are names up to five, and no name left out that sells more
      than one listed. */
  ghost predicate IsTopProducts(paid: seq<Order>, top: seq<Group>) {
    && |top| == Stock.Min(TopLimit, |Names(paid)|)
    && NamesDistinct(top)
    && ByCountDesc(top)
    && (forall g :: g in top ==> g.name in Names(paid) && g.count == CountOf(paid, g.name) && g.revenue == RevenueOf(paid, g.name))
    && (forall nm, g :: nm in Names(paid) && g in top && (forall h :: h in top ==> h.name != nm) ==> CountOf(paid, nm) <= g.count)
  }

  lemma GroupsDistinct(paid: seq<Order>)
    ensures NamesDistinct(Groups(paid))
  {
  }

  /** The model's top products are an answer the query allows. */
  lemma TopProductsCorrect(rows: seq<Order>)
    ensures IsTopProducts(PaidOrders(rows), OrdersStats(rows).topProducts)
  {
    var paid := PaidOrders(rows);
    var groups := Groups(paid);
    var sorted := SortByCount(groups);
    var top := OrdersStats(rows).topProducts;
    assert top == sorted[..Stock.Min(TopLimit, |sorted|)];
    GroupsDistinct(paid);
    SortSorted(groups);
    SortDistinct(groups);
    SortMembers(groups);
    PrefixFacts(sorted, Stock.Min(TopLimit, |sorted|));
    TopExact(paid, sorted, top);
    TopMaximal(paid, sorted, Stock.Min(TopLimit, |sorted|));
  }

  lemma PrefixFacts(sorted: seq<Group>, k: int)
    requires 0 <= k <= |sorted|
    requires ByCountDesc(sorted) && NamesDistinct(sorted)
    ensures ByCountDesc(sorted[..k]) && NamesDistinct(sorted[..k])
    ensures forall g :: g in sorted[..k] ==> g in sorted
  {
    var top := sorted[..k];
    assert forall i :: 0 <= i < k ==> top[i] == sorted[i];
  }

  /** Every listed group carries the exact count and total of its name. */
  lemma TopExact(paid: seq<Order>, sorted: seq<Group>, top: seq<Group>)
    requires forall x :: x in sorted <==> x in Groups(paid)
    requires forall g :: g in top ==> g in sorted
    ensures forall g :: g in top ==> g.name in Names(paid) && g.count == CountOf(paid, g.name) && g.revenue == RevenueOf(paid, g.name)
  {
    var groups := Groups(paid);
    forall g | g in top
      ensures g.name in Names(paid) && g.count == CountOf(paid, g.name) && g.revenue == RevenueOf(paid, g.name)
    {
      var i :| 0 <= i < |groups| && groups[i] == g;
    }
  }

  /** No name left off the list sells more than a listed one. */
  lemma TopMaximal(paid: seq<Order>, sorted: seq<Group>, k: int)
    requires 0 <= k <= |sorted| && ByCountDesc(sorted)
    requires forall x :: x in sorted <==> x in Groups(paid)
    ensures forall nm, g :: nm in Names(paid) && g in sorted[..k] && (forall h :: h in sorted[..k] ==> h.name != nm) ==> CountOf(paid, nm) <= g.count
  {
    var groups := Groups(paid);
    var top := sorted[..k];
    forall nm, g | nm in Names(paid) && g in top && (forall h :: h in top ==> h.name != nm)
      ensures CountOf(paid, nm) <= g.count
    {
      var i :| 0 <= i < |Names(paid)| && Names(paid)[i] == nm;
      var gn := groups[i];
      assert gn in sorted;
      var j :| 0 <= j < |sorted| && sorted[j] == gn;
      assert k <= j;
      var m :| 0 <= m < k && top[m] == g;
      assert sorted[m] == g;
    }
  }

  // ---------------------------------------------------------------------------
  // The groups account for every paid order

  function SumCounts(names: seq<string>, rows: seq<Order>): nat {
    if names == [] then 0 else SumCounts(names[..|names| - 1], rows) + CountOf(rows, names[|names| - 1])
  }

  /** One more row adds one to the sum exactly when its name is listed. */
  lemma {:induction false} SumCountsStep(names: seq<string>, init: seq<Order>, o: Order)
    requires Distinct(names)
    ensures SumCounts(names, init + [o]) == SumCounts(names, init) + (if o.productName in names then 1 else 0)
    decreases |names|
  {
    var rows := init + [o];
    assert rows[..|rows| - 1] == init;
    if names != [] {
      var front := names[..|names| - 1];
      assert Distinct(front);
      SumCountsStep(front, init, o);
      assert names == front + [names[|names| - 1]];
      assert o.productName in names <==> o.productName in front || o.productName == names[|names| - 1];
      assert o.productName == names[|names| - 1] ==> o.productName !in front;
    }
  }

  /** The counts of all groups add up to the number of paid orders. */
  lemma {:induction false} CountsCoverRows(rows: seq<Order>)
    ensures SumCounts(Names(rows), rows) == |rows|
    decreases |rows|
  {
    if rows != [] {
      var init := rows[..|rows| - 1];
      var o := rows[|rows| - 1];
      assert rows == init + [o];
      CountsCoverRows(init);
      var n := Names(init);
      SumCountsStep(n, init, o);
      if o.productName !in n {
        NameAbsentCountZero(init, o.productName);
        assert (n + [o.productName])[..|n|] == n;
      }
    }
  }

  lemma {:induction false} NameAbsentCountZero(rows: seq<Order>, name: string)
    requires name !in Names(rows)
    ensures CountOf(rows, name) == 0
    decreases |rows|
  {
    if rows != [] {
      var init := rows[..|rows| - 1];
      assert forall i :: 0 <= i < |init| ==> init[i] == rows[i];
      assert rows[|rows| - 1].productName != name;
      assert name !in Names(init);
      NameAbsentCountZero(init, name);
    }
  }

  function SumRevenues(names: seq<string>, rows: seq<Order>): real {
    if names == [] then 0.0 else SumRevenues(names[..|names| - 1], rows) + RevenueOf(rows, names[|names| - 1])
  }

  lemma {:induction false} SumRevenuesStep(names: seq<string>, init: seq<Order>, o: Order)
    requires Distinct(names)
    ensures SumRevenues(names, init + [o]) == SumRevenues(names, init) + (if o.productName in names then o.price else 0.0)
    decreases |names|
  {
    var rows := init + [o];
    assert rows[..|rows| - 1] == init;
    if names != [] {
      var front := names[..|names| - 1];
      assert Distinct(front);
      SumRevenuesStep(front, init, o);
      assert names == front + [names[|names| - 1]];
      assert o.productName in names <==> o.productName in front || o.productName == names[|names| - 1];
      assert o.productName == names[|names| - 1] ==> o.productName !in front;
    }
  }

  /** The totals of all groups add up to the total revenue. */
  lemma {:induction false} RevenuesCoverRows(rows: seq<Order>)
    ensures SumRevenues(Names(rows), rows) == Revenue(rows)
    decreases |rows|
  {
    if rows != [] {
      var init := rows[..|rows| - 1];
      var o := rows[|rows| - 1];
      assert rows == init + [o];
      RevenuesCoverRows(init);
      var n := Names(init);
      SumRevenuesStep(n, init, o);
      if o.productName !in n {
        NameAbsentRevenueZero(init, o.productName);
        assert (n + [o.productName])[..|n|] == n;
      }
    }
  }

  lemma {:induction false} NameAbsentRevenueZero(rows: seq<Order>, name: string)
    requires name !in Names(rows)
    ensures RevenueOf(rows, name) == 0.0
    decreases |rows|
  {
    if rows != [] {
      var init := rows[..|rows| - 1];
      assert forall i :: 0 <= i < |init| ==> init[i] == rows[i];
      assert rows[|rows| - 1].productName != name;
      assert name !in Names(init);
      NameAbsentRevenueZero(init, name);
    }
  }

  /** The totals: the number of paid orders and their revenue, and the groups
      of all product names split both exactly. With no paid order both are 0 and
      the list is empty. */
  lemma StatsTotals(rows: seq<Order>)
    ensures var s := OrdersStats(rows); var paid := PaidOrders(rows);
      && s.totalOrders == |paid| == SumCounts(Names(paid), paid)
      && s.totalRevenue == Revenue(paid) == SumRevenues(Names(paid), paid)
      && (paid == [] ==> s.totalRevenue == 0.0 && s.totalOrders == 0 && s.topProducts == [])
  {
    var paid := PaidOrders(rows);
    CountsCoverRows(paid);
    RevenuesCoverRows(paid);
  }

  /** With at most five product names the top list is every group, so the paid
      orders it covers are all of them. */
  lemma TopCoversAllWhenFew(rows: seq<Order>)
    requires |Names(PaidOrders(rows))| <= TopLimit
    ensures var s := OrdersStats(rows);
      multiset(s.topProducts) == multiset(Groups(PaidOrders(rows)))
      && SumCounts(Names(PaidOrders(rows)), PaidOrders(rows)) == s.totalOrders
  {
    var paid := PaidOrders(rows);
    var sorted := SortByCount(Groups(paid));
    assert sorted[..|sorted|] == sorted;
    CountsCoverRows(paid);
  }
}
