/** The in-memory sale record store behind the API endpoints. */
module SalesApi {
  import opened SaleRecords
  import opened Rollups

  /** The five records the store starts with. */
  function SeedData(): seq<SaleItem>
  {
    [ SaleItem("2024-01-01", "Notebook", "Eletrônicos", 3500.0, 2, Some("João")),
      SaleItem("2024-01-01", "Mouse", "Eletrônicos", 150.0, 5, Some("Maria")),
      SaleItem("2024-01-02", "Teclado", "Eletrônicos", 250.0, 3, Some("José")),
      SaleItem("2024-01-02", "Monitor", "Eletrônicos", 1200.0, 1, Some("Ana")),
      SaleItem("2024-01-03", "Cadeira", "Móveis", 800.0, 2, Some("Carlos")) ]
  }

  /** The KPI snapshot of the seed records. */
  lemma SeedKpis()
    ensures Kpis(SeedData()).totalRevenue == 11300.0
    ensures Kpis(SeedData()).totalOrders == 5
    ensures Kpis(SeedData()).averageTicket == 2260.0
  {
    var s := SeedData();
    assert s[..1] == [s[0]] && s[..2] == s[..1] + [s[1]];
    RevenueStep(s, 0);
    RevenueStep(s, 1);
    RevenueStep(s, 2);
    RevenueStep(s, 3);
    RevenueStep(s, 4);
    assert s[..5] == s;
  }

  /** The state of the category loop after the records `done`: the groups are
      their rollup and `slot` maps each category seen to its group. */
  ghost predicate RollupState(done: seq<SaleItem>, groups: seq<CategoryTotal>, slot: map<string, nat>)
  {
    && Tally(done, groups)
    && (forall c :: c in slot <==> c in Categories(done))
    && (forall c :: c in slot ==> slot[c] < |groups| && groups[slot[c]].category == c)
  }

  /** One iteration of the category loop, as the method performs it, keeps
      the loop state. */
  lemma RollupAdvance(done: seq<SaleItem>, groups: seq<CategoryTotal>, slot: map<string, nat>,
                      sale: SaleItem, groups': seq<CategoryTotal>, slot': map<string, nat>)
    requires RollupState(done, groups, slot)
    requires slot' == if sale.category in slot then slot else slot[sale.category := |groups|]
    requires slot'[sale.category] <= |groups|
    requires groups' == Step(groups, sale, slot'[sale.category])
    ensures RollupState(done + [sale], groups', slot')
  {
    var k := slot'[sale.category];
    TallyExtend(done, groups, sale, k);
    CategoriesSnoc(done, sale);
    assert forall c :: c in Categories(done + [sale]) <==> c in Categories(done) || c == sale.category;
    forall c | c in slot' ensures slot'[c] < |groups'| && groups'[slot'[c]].category == c {
      if c != sale.category {
        assert slot'[c] == slot[c] && slot[c] != k;
      }
    }
  }

  /** The store: an ordered list of sale records, only ever appended to. */
  class SalesStore {
    var sales: seq<SaleItem>

    constructor ()
      ensures sales == SeedData()
    {
      sales := SeedData();
    }

    /** The list endpoint: the records in insertion order. */
    method GetAllSales() returns (r: seq<SaleItem>)
      ensures r == sales
    {
      r := sales;
    }

    /** The daily endpoint: one total per day of the trailing window, oldest
        first, or `None` (the internal-error answer) when the window reaches
        before the first representable date. `today` is the ordinal of the
        current date, `fmt` renders an ordinal as the date string, and
        `draws[k]` is the random fill for the k-th day of the window. */
    method GetDailySales(today: int, fmt: int -> string, draws: seq<Draw>, days: int := 7)
      returns (response: Option<seq<DailyTotal>>)
      requires FirstOrdinal <= today <= LastOrdinal
      requires days <= |draws|
      requires forall k :: 0 <= k < |draws| ==> draws[k].InBounds()
      ensures response.None? <==> days > 0 && WindowOverflows(today, days)
      ensures response.Some? ==> var daily := response.value;
        && |daily| == |WindowDates(fmt, today, days)|
        && (forall k :: 0 <= k < |daily| ==> daily[k].date == WindowDates(fmt, today, days)[k])
        && (forall k :: 0 <= k < |daily| && OnDate(sales, daily[k].date) != [] ==>
              daily[k].revenue == Revenue(OnDate(sales, daily[k].date))
              && daily[k].orders == |OnDate(sales, daily[k].date)|)
        && (forall k :: 0 <= k < |daily| && OnDate(sales, daily[k].date) == [] ==>
              daily[k].revenue == draws[k].revenue && daily[k].orders == draws[k].orders
              && 1000.0 <= daily[k].revenue <= 5000.0 && 5 <= daily[k].orders <= 20)
    {
      if days > 0 && WindowOverflows(today, days) {
        return None;
      }
      var ss := sales;
      var dates := NewestFirst(fmt, today, days);
      dates := Reverse(dates);
      ReversedIsWindow(fmt, today, days);

      var daily: seq<DailyTotal> := [];
      var i := 0;
      while i < |dates|
        invariant 0 <= i <= |dates|
        invariant |daily| == i
        invariant forall k :: 0 <= k < i ==> daily[k].date == dates[k] && Reported(ss, daily[k], draws[k])
      {
        var date := dates[i];
        var daySales := OnDate(ss, date);
        var revenue: real;
        var orders: int;
        if daySales != [] {
          revenue := Revenue(daySales);
          orders := |daySales|;
        } else {
          revenue := draws[i].revenue;
          orders := draws[i].orders;
        }
        daily := daily + [DailyTotal(date, revenue, orders)];
        i := i + 1;
      }
      response := Some(daily);
    }

    /** The category endpoint: one group per distinct category, in order of
        first occurrence, with its revenue and quantity. */
    method GetSalesByCategory() returns (groups: seq<CategoryTotal>)
      ensures |groups| == |Categories(sales)|
      ensures forall k :: 0 <= k < |groups| ==> groups[k].category == Categories(sales)[k]
      ensures forall k :: 0 <= k < |groups| ==>
        groups[k].revenue == Revenue(InCategory(sales, groups[k].category))
        && groups[k].quantity == TotalQuantity(InCategory(sales, groups[k].category))
      ensures GroupsRevenue(groups) == Revenue(sales)
      ensures GroupsQuantity(groups) == TotalQuantity(sales)
    {
      var ss := sales;
      groups := [];
      // The dictionary's index: each category's position in `groups`.
      var slot: map<string, nat> := map[];
      var i := 0;
      ghost var done: seq<SaleItem> := [];
      while i < |ss|
        invariant 0 <= i <= |ss|
        invariant done == ss[..i]
        invariant RollupState(done, groups, slot)
      {
        var sale := ss[i];
        var cat := sale.category;
        ghost var before, slotBefore := groups, slot;
        if cat !in slot {
          slot := slot[cat := |groups|];
          groups := groups + [CategoryTotal(cat, 0.0, 0)];
        }
        var k := slot[cat];
        groups := groups[k := Bump(groups[k], sale)];
        RollupAdvance(done, before, slotBefore, sale, groups, slot);
        PrefixStep(ss, i);
        done := done + [sale];
        i := i + 1;
      }
      assert done == ss;
    }

    /** The batch import endpoint: appends every item in the order given and
        returns how many were added. */
    method ImportBatch(batch: seq<SaleItem>) returns (count: int)
      modifies this
      ensures sales == old(sales) + batch
      ensures sales[..|old(sales)|] == old(sales)
      ensures count == |batch|
    {
      var i := 0;
      while i < |batch|
        invariant 0 <= i <= |batch|
        invariant sales == old(sales) + batch[..i]
      {
        assert batch[..i + 1] == batch[..i] + [batch[i]];
        sales := sales + [batch[i]];
        i := i + 1;
      }
      assert batch[..i] == batch;
      count := |batch|;
    }
  }
}
