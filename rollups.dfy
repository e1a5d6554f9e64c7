/** The reports the API derives from the sale records: the KPI snapshot, the
    daily window and the per-category groups, as specification functions with
    the properties the endpoints promise. */
module Rollups {
  import opened SaleRecords

  /** The KPI fields that are fixed in the API, not derived from the records. */
  const ActiveCustomers: int := 150
  const RevenueGrowth: real := 12.5

  datatype KpiSnapshot = KpiSnapshot(
    totalRevenue: real,
    totalOrders: int,
    averageTicket: real,
    activeCustomers: int,
    revenueGrowth: real)

  /** The KPI snapshot of the given records; the average ticket is 0 when there
      are no orders, so there is no division by zero. */
  function Kpis(ss: seq<SaleItem>): (k: KpiSnapshot)
    ensures k.totalRevenue == Revenue(ss)
    ensures k.totalOrders == |ss|
    ensures k.totalOrders == 0 ==> k.averageTicket == 0.0
    ensures k.totalOrders > 0 ==> k.averageTicket * (k.totalOrders as real) == k.totalRevenue
    ensures k.activeCustomers == 150 && k.revenueGrowth == 12.5
  {
    var revenue := Revenue(ss);
    var orders := |ss|;
    KpiSnapshot(
      revenue,
      orders,
      if orders != 0 then revenue / (orders as real) else 0.0,
      ActiveCustomers,
      RevenueGrowth)
  }

  /** After a batch is appended, revenue and order count grow by exactly the
      batch's own revenue and size. */
  lemma KpisAfterImport(before: seq<SaleItem>, batch: seq<SaleItem>)
    ensures Kpis(before + batch).totalRevenue == Kpis(before).totalRevenue + Revenue(batch)
    ensures Kpis(before + batch).totalOrders == Kpis(before).totalOrders + |batch|
  {
    RevenueAppend(before, batch);
  }

  /** Import does not deduplicate: submitting the same batch twice counts its
      revenue and its orders twice. */
  lemma KpisAfterResubmit(before: seq<SaleItem>, batch: seq<SaleItem>)
    ensures Kpis(before + batch + batch).totalRevenue
         == Kpis(before).totalRevenue + 2.0 * Revenue(batch)
    ensures Kpis(before + batch + batch).totalOrders == Kpis(before).totalOrders + 2 * |batch|
  {
    KpisAfterImport(before, batch);
    KpisAfterImport(before + batch, batch);
  }

  // ---------------------------------------------------------------- daily window

  /** The entries whose date string equals `date`, in store order. */
  function OnDate(ss: seq<SaleItem>, date: string): (r: seq<SaleItem>)
    ensures |r| <= |ss|
  {
    if ss == [] then []
    else
      var prev := OnDate(ss[..|ss| - 1], date);
      if ss[|ss| - 1].date == date then prev + [ss[|ss| - 1]] else prev
  }

  /** The filter keeps exactly the entries with that date, each as many times
      as it occurs in the store. */
  lemma {:induction false} OnDateMembers(ss: seq<SaleItem>, date: string)
    ensures forall x :: x in OnDate(ss, date) <==> x in ss && x.date == date
    ensures forall x :: multiset(OnDate(ss, date))[x] == if x.date == date then multiset(ss)[x] else 0
  {
    if ss != [] {
      var init := ss[..|ss| - 1];
      OnDateMembers(init, date);
      assert ss == init + [ss[|ss| - 1]];
    }
  }

  /** A date has matches exactly when some entry carries that date string. */
  lemma OnDateNonEmpty(ss: seq<SaleItem>, date: string)
    ensures OnDate(ss, date) != [] <==> exists k :: 0 <= k < |ss| && ss[k].date == date
  {
    OnDateMembers(ss, date);
    if OnDate(ss, date) != [] {
      var x := OnDate(ss, date)[0];
      assert x in OnDate(ss, date);
      var k :| 0 <= k < |ss| && ss[k] == x;
    } else {
      forall k | 0 <= k < |ss| ensures ss[k].date != date {
        assert ss[k] in ss;
      }
    }
  }

  /** The day numbers of a window of `days` days ending with `today`, oldest
      first; empty when `days <= 0`. */
  function WindowDays(today: int, days: int): (w: seq<int>)
    ensures |w| == if days > 0 then days else 0
  {
    var n := if days > 0 then days else 0;
    seq(n, k requires 0 <= k < n => today - n + 1 + k)
  }

  /** The window as date strings. */
  function WindowDates(fmt: int -> string, today: int, days: int): (w: seq<string>)
    ensures |w| == |WindowDays(today, days)|
  {
    var ds := WindowDays(today, days);
    seq(|ds|, k requires 0 <= k < |ds| => fmt(ds[k]))
  }

  /** The window is trailing and gap-free: it ends at `today`, every day lies
      within the last `days` days, and each day follows the previous by one. */
  lemma WindowShape(today: int, days: int)
    ensures var w := WindowDays(today, days);
      && (w != [] ==> w[|w| - 1] == today && w[0] == today - days + 1)
      && (forall k :: 0 <= k < |w| ==> today - days < w[k] <= today)
      && (forall k :: 0 < k < |w| ==> w[k] == w[k - 1] + 1)
  {
  }

  /** With a formatter that gives distinct strings to distinct days, the
      window has no duplicate dates. */
  lemma WindowDatesDistinct(fmt: int -> string, today: int, days: int)
    requires forall a, b :: today - days < a <= today && today - days < b <= today && fmt(a) == fmt(b) ==> a == b
    ensures var w := WindowDates(fmt, today, days);
      forall i, j :: 0 <= i < j < |w| ==> w[i] != w[j]
  {
    var ds := WindowDays(today, days);
    var w := WindowDates(fmt, today, days);
    forall i, j | 0 <= i < j < |w| ensures w[i] != w[j] {
      assert w[i] == fmt(ds[i]) && w[j] == fmt(ds[j]);
      assert ds[i] < ds[j];
      assert today - days < ds[i] <= today && today - days < ds[j] <= today;
    }
  }

  /** The synthetic fill for a day without matches: revenue drawn from
      [1000, 5000] and orders from 5 to 20. */
  datatype Draw = Draw(revenue: real, orders: int) {
    predicate InBounds() {
      1000.0 <= revenue <= 5000.0 && 5 <= orders <= 20
    }
  }

  datatype DailyTotal = DailyTotal(date: string, revenue: real, orders: int)

  /** Day `day` of the report is right for records `ss`: a date with matches
      reports their revenue and count, a date without matches reports the
      draw. */
  ghost predicate Reported(ss: seq<SaleItem>, day: DailyTotal, draw: Draw)
  {
    var matches := OnDate(ss, day.date);
    if matches != [] then day.revenue == Revenue(matches) && day.orders == |matches|
    else day.revenue == draw.revenue && day.orders == draw.orders
  }

  /** Reverses a sequence (the in-place `reverse` of the date list). */
  function Reverse<T>(s: seq<T>): seq<T>
  {
    seq(|s|, k requires 0 <= k < |s| => s[|s| - 1 - k])
  }

  /** The date list as the API first builds it: today, yesterday, ... back
      `days - 1` days, newest first; empty when `days <= 0`. */
  function NewestFirst(fmt: int -> string, today: int, days: int): seq<string>
  {
    var n := if days > 0 then days else 0;
    seq(n, i requires 0 <= i < n => fmt(today - i))
  }

  /** Reversing the newest-first list gives the oldest-first window. */
  lemma ReversedIsWindow(fmt: int -> string, today: int, days: int)
    ensures Reverse(NewestFirst(fmt, today, days)) == WindowDates(fmt, today, days)
  {
  }

  /** Dates are proleptic Gregorian day ordinals: 0001-01-01 is day 1 and
      9999-12-31 is day 3652059. */
  const FirstOrdinal: int := 1
  const LastOrdinal: int := 3652059

  /** Stepping back from `today` fails once the window reaches before the
      first representable date. */
  predicate WindowOverflows(today: int, days: int)
  {
    today - days + 1 < FirstOrdinal
  }

  /** A non-empty window overflows exactly when one of its days lies before
      the first representable date. */
  lemma OverflowMeansEarlyDay(today: int, days: int)
    requires days > 0
    ensures WindowOverflows(today, days) <==>
      exists k :: 0 <= k < |WindowDays(today, days)| && WindowDays(today, days)[k] < FirstOrdinal
  {
    var w := WindowDays(today, days);
    if WindowOverflows(today, days) {
      assert w[0] < FirstOrdinal;
    }
  }

  // ---------------------------------------------------------------- categories

  /** The entries of one category (exact string match), in store order. */
  function InCategory(ss: seq<SaleItem>, category: string): (r: seq<SaleItem>)
    ensures |r| <= |ss|
  {
    if ss == [] then []
    else
      var prev := InCategory(ss[..|ss| - 1], category);
      if ss[|ss| - 1].category == category then prev + [ss[|ss| - 1]] else prev
  }

  /** The filter keeps exactly the entries of that category, each as many
      times as it occurs in the store. */
  lemma {:induction false} InCategoryMembers(ss: seq<SaleItem>, category: string)
    ensures forall x :: x in InCategory(ss, category) <==> x in ss && x.category == category
    ensures forall x :: multiset(InCategory(ss, category))[x] == if x.category == category then multiset(ss)[x] else 0
  {
    if ss != [] {
      var init := ss[..|ss| - 1];
      InCategoryMembers(init, category);
      assert ss == init + [ss[|ss| - 1]];
    }
  }

  /** The distinct category strings, in order of first occurrence. */
  function Categories(ss: seq<SaleItem>): seq<string>
  {
    if ss == [] then []
    else
      var prev := Categories(ss[..|ss| - 1]);
      var c := ss[|ss| - 1].category;
      if c in prev then prev else prev + [c]
  }

  /** The position of the first entry of `category`, or `|ss|` if there is none. */
  function FirstIndex(ss: seq<SaleItem>, category: string): (k: nat)
    ensures k <= |ss|
    ensures k < |ss| ==> ss[k].category == category
    ensures forall j :: 0 <= j < k ==> ss[j].category != category
  {
    if ss == [] then 0
    else if ss[0].category == category then 0
    else 1 + FirstIndex(ss[1..], category)
  }

  /** Appending entries does not move the first occurrence of a category that
      is already present. */
  lemma {:induction false} FirstIndexAppend(ss: seq<SaleItem>, t: seq<SaleItem>, category: string)
    requires FirstIndex(ss, category) < |ss|
    ensures FirstIndex(ss + t, category) == FirstIndex(ss, category)
  {
    if ss[0].category != category {
      assert (ss + t)[1..] == ss[1..] + t;
      FirstIndexAppend(ss[1..], t, category);
    }
  }

  /** Appending one entry to the records: how the category list changes. */
  lemma CategoriesSnoc(ss: seq<SaleItem>, x: SaleItem)
    ensures Categories(ss + [x])
         == if x.category in Categories(ss) then Categories(ss) else Categories(ss) + [x.category]
  {
    assert (ss + [x])[..|ss|] == ss;
  }

  /** A category is listed exactly when some entry carries it. */
  lemma {:induction false} CategoriesMembers(ss: seq<SaleItem>)
    ensures forall c :: c in Categories(ss) <==> exists k :: 0 <= k < |ss| && ss[k].category == c
  {
    if ss != [] {
      var init, last := ss[..|ss| - 1], ss[|ss| - 1];
      assert ss == init + [last];
      CategoriesSnoc(init, last);
      CategoriesMembers(init);
      assert forall c :: c in Categories(ss) <==> c in Categories(init) || c == last.category;
      forall c | c in Categories(ss) ensures exists k :: 0 <= k < |ss| && ss[k].category == c {
        if c == last.category {
          assert ss[|ss| - 1].category == c;
        } else {
          var k :| 0 <= k < |init| && init[k].category == c;
          assert ss[k] == init[k];
        }
      }
      forall k | 0 <= k < |ss| ensures ss[k].category in Categories(ss) {
        if k < |init| {
          assert ss[k] == init[k];
        }
      }
    }
  }

  /** Every category is listed once. */
  lemma {:induction false} CategoriesDistinct(ss: seq<SaleItem>)
    ensures forall i, j :: 0 <= i < j < |Categories(ss)| ==> Categories(ss)[i] != Categories(ss)[j]
  {
    if ss != [] {
      var init, last := ss[..|ss| - 1], ss[|ss| - 1];
      assert ss == init + [last];
      CategoriesSnoc(init, last);
      CategoriesDistinct(init);
      var prev := Categories(init);
      if last.category !in prev {
        var cs := prev + [last.category];
        forall i, j | 0 <= i < j < |cs| ensures cs[i] != cs[j] {
          if j == |prev| { assert cs[i] == prev[i]; assert prev[i] in prev; }
        }
      }
    }
  }

  /** No entry carries a category that is not listed. */
  lemma UnlistedAbsent(ss: seq<SaleItem>, c: string)
    requires c !in Categories(ss)
    ensures forall j :: 0 <= j < |ss| ==> ss[j].category != c
  {
    CategoriesMembers(ss);
  }

  /** A category that first appears in the last entry has its first
      occurrence there. */
  lemma FirstIndexOfNew(ss: seq<SaleItem>, x: SaleItem)
    requires forall j :: 0 <= j < |ss| ==> ss[j].category != x.category
    ensures FirstIndex(ss + [x], x.category) == |ss|
  {
    assert (ss + [x])[|ss|].category == x.category;
    assert forall j :: 0 <= j < |ss| ==> (ss + [x])[j] == ss[j];
  }

  /** The ordering property of the listed categories, for `ss`. */
  ghost predicate ListedInFirstSeenOrder(ss: seq<SaleItem>)
  {
    var cs := Categories(ss);
    && (forall i :: 0 <= i < |cs| ==> FirstIndex(ss, cs[i]) < |ss|)
    && (forall i, j :: 0 <= i < j < |cs| ==> FirstIndex(ss, cs[i]) < FirstIndex(ss, cs[j]))
  }

  /** Appending an entry of a category already listed keeps the categories in
      first-seen order. */
  lemma FirstSeenSnocListed(init: seq<SaleItem>, last: SaleItem)
    requires ListedInFirstSeenOrder(init)
    requires last.category in Categories(init)
    ensures ListedInFirstSeenOrder(init + [last])
  {
    CategoriesSnoc(init, last);
    var prev := Categories(init);
    forall i | 0 <= i < |prev| ensures FirstIndex(init + [last], prev[i]) == FirstIndex(init, prev[i]) {
      FirstIndexAppend(init, [last], prev[i]);
    }
  }

  /** Appending an entry of a new category keeps the categories in first-seen
      order: the new category comes last and first occurs last. */
  lemma FirstSeenSnocNew(init: seq<SaleItem>, last: SaleItem)
    requires ListedInFirstSeenOrder(init)
    requires last.category !in Categories(init)
    ensures ListedInFirstSeenOrder(init + [last])
  {
    var ss := init + [last];
    CategoriesSnoc(init, last);
    var prev := Categories(init);
    var cs := prev + [last.category];
    forall i | 0 <= i < |prev| ensures FirstIndex(ss, cs[i]) == FirstIndex(init, prev[i]) {
      assert cs[i] == prev[i];
      FirstIndexAppend(init, [last], prev[i]);
    }
    UnlistedAbsent(init, last.category);
    FirstIndexOfNew(init, last);
    assert FirstIndex(ss, cs[|prev|]) == |init|;
  }

  /** Appending one entry keeps the categories in first-seen order. */
  lemma FirstSeenSnoc(init: seq<SaleItem>, last: SaleItem)
    requires ListedInFirstSeenOrder(init)
    ensures ListedInFirstSeenOrder(init + [last])
  {
    if last.category in Categories(init) {
      FirstSeenSnocListed(init, last);
    } else {
      FirstSeenSnocNew(init, last);
    }
  }

  /** Categories are listed in the order in which they first occur. */
  lemma {:induction false} CategoriesFirstSeen(ss: seq<SaleItem>)
    ensures forall i :: 0 <= i < |Categories(ss)| ==> FirstIndex(ss, Categories(ss)[i]) < |ss|
    ensures forall i, j :: 0 <= i < j < |Categories(ss)| ==>
      FirstIndex(ss, Categories(ss)[i]) < FirstIndex(ss, Categories(ss)[j])
  {
    if ss != [] {
      var init, last := ss[..|ss| - 1], ss[|ss| - 1];
      assert ss == init + [last];
      CategoriesFirstSeen(init);
      FirstSeenSnoc(init, last);
    }
  }

  datatype CategoryTotal = CategoryTotal(category: string, revenue: real, quantity: int)

  /** Adds one sale line to a group's running totals. */
  function Bump(g: CategoryTotal, x: SaleItem): (r: CategoryTotal)
    ensures r.category == g.category
  {
    g.(revenue := g.revenue + LineRevenue(x), quantity := g.quantity + x.quantity)
  }

  /** Sum of the groups' revenue. */
  function GroupsRevenue(gs: seq<CategoryTotal>): real
  {
    if gs == [] then 0.0 else GroupsRevenue(gs[..|gs| - 1]) + gs[|gs| - 1].revenue
  }

  /** Sum of the groups' quantity. */
  function GroupsQuantity(gs: seq<CategoryTotal>): int
  {
    if gs == [] then 0 else GroupsQuantity(gs[..|gs| - 1]) + gs[|gs| - 1].quantity
  }

  /** Adding a group adds its totals. */
  lemma GroupsAppend(gs: seq<CategoryTotal>, g: CategoryTotal)
    ensures GroupsRevenue(gs + [g]) == GroupsRevenue(gs) + g.revenue
    ensures GroupsQuantity(gs + [g]) == GroupsQuantity(gs) + g.quantity
  {
    assert (gs + [g])[..|gs|] == gs;
  }

  /** Replacing one group changes the sums by exactly that group's difference. */
  lemma {:induction false} GroupsUpdate(gs: seq<CategoryTotal>, k: nat, g: CategoryTotal)
    requires k < |gs|
    ensures GroupsRevenue(gs[k := g]) == GroupsRevenue(gs) - gs[k].revenue + g.revenue
    ensures GroupsQuantity(gs[k := g]) == GroupsQuantity(gs) - gs[k].quantity + g.quantity
  {
    var n := |gs| - 1;
    if k == n {
      assert gs[k := g][..n] == gs[..n];
    } else {
      assert gs[k := g][..n] == gs[..n][k := g];
      GroupsUpdate(gs[..n], k, g);
    }
  }

  /** `groups` is the category rollup of `ss`: one group per distinct category
      in first-seen order, each with its category's totals, and the groups
      together account for all revenue and quantity. */
  ghost predicate Tally(ss: seq<SaleItem>, groups: seq<CategoryTotal>)
  {
    && |groups| == |Categories(ss)|
    && (forall k :: 0 <= k < |groups| ==> groups[k].category == Categories(ss)[k])
    && (forall k :: 0 <= k < |groups| ==>
          groups[k].revenue == Revenue(InCategory(ss, groups[k].category))
          && groups[k].quantity == TotalQuantity(InCategory(ss, groups[k].category)))
    && GroupsRevenue(groups) == Revenue(ss)
    && GroupsQuantity(groups) == TotalQuantity(ss)
  }

  /** Appending `x` adds its line to its own category's totals and leaves
      every other category's totals alone. */
  lemma InCategorySnocTotals(ss: seq<SaleItem>, x: SaleItem, c: string)
    ensures Revenue(InCategory(ss + [x], c))
         == Revenue(InCategory(ss, c)) + (if x.category == c then LineRevenue(x) else 0.0)
    ensures TotalQuantity(InCategory(ss + [x], c))
         == TotalQuantity(InCategory(ss, c)) + (if x.category == c then x.quantity else 0)
  {
    assert (ss + [x])[..|ss|] == ss;
    var b := InCategory(ss, c);
    assert (b + [x])[..|b|] == b;
  }

  /** A category not yet listed has no entries. */
  lemma UnlistedCategoryEmpty(ss: seq<SaleItem>, c: string)
    requires c !in Categories(ss)
    ensures InCategory(ss, c) == []
  {
    InCategoryMembers(ss, c);
    CategoriesMembers(ss);
  }

  /** The groups after one step of the rollup loop: `x`'s line is added to the
      group at position `k`, after a zero group for `x`'s category is opened at
      the end when `k == |groups|`. */
  function Step(groups: seq<CategoryTotal>, x: SaleItem, k: nat): (r: seq<CategoryTotal>)
    requires k <= |groups|
    ensures |r| == if k == |groups| then |groups| + 1 else |groups|
    ensures r[k].category == (if k == |groups| then x.category else groups[k].category)
    ensures forall j :: 0 <= j < |groups| && j != k ==> r[j] == groups[j]
  {
    var grown := if k == |groups| then groups + [CategoryTotal(x.category, 0.0, 0)] else groups;
    grown[k := Bump(grown[k], x)]
  }

  /** One step keeps the sums of the groups equal to the totals of the records. */
  lemma StepSums(ss: seq<SaleItem>, groups: seq<CategoryTotal>, x: SaleItem, k: nat)
    requires k <= |groups|
    requires GroupsRevenue(groups) == Revenue(ss) && GroupsQuantity(groups) == TotalQuantity(ss)
    ensures GroupsRevenue(Step(groups, x, k)) == Revenue(ss + [x])
    ensures GroupsQuantity(Step(groups, x, k)) == TotalQuantity(ss + [x])
  {
    var grown := if k == |groups| then groups + [CategoryTotal(x.category, 0.0, 0)] else groups;
    if k == |groups| {
      GroupsAppend(groups, CategoryTotal(x.category, 0.0, 0));
    }
    GroupsUpdate(grown, k, Bump(grown[k], x));
    assert (ss + [x])[..|ss|] == ss;
  }

  /** One step keeps the totals of the group at position `j` right, given
      that group's totals before the step. */
  lemma StepGroupAt(ss: seq<SaleItem>, groups: seq<CategoryTotal>, x: SaleItem, k: nat, j: nat)
    requires k <= |groups| && j < |Step(groups, x, k)|
    requires j < |groups| ==>
      groups[j].revenue == Revenue(InCategory(ss, groups[j].category))
      && groups[j].quantity == TotalQuantity(InCategory(ss, groups[j].category))
    requires j != k ==> groups[j].category != x.category
    requires j == k && k < |groups| ==> groups[k].category == x.category
    requires k == |groups| ==> InCategory(ss, x.category) == []
    ensures Step(groups, x, k)[j].revenue == Revenue(InCategory(ss + [x], Step(groups, x, k)[j].category))
    ensures Step(groups, x, k)[j].quantity == TotalQuantity(InCategory(ss + [x], Step(groups, x, k)[j].category))
  {
    InCategorySnocTotals(ss, x, Step(groups, x, k)[j].category);
  }

  /** One step keeps every group's totals equal to its category's totals. */
  lemma StepGroups(ss: seq<SaleItem>, groups: seq<CategoryTotal>, x: SaleItem, k: nat)
    requires Tally(ss, groups)
    requires k <= |groups|
    requires k < |groups| ==> groups[k].category == x.category
    requires k == |groups| ==> x.category !in Categories(ss)
    ensures var next := Step(groups, x, k);
      forall j :: 0 <= j < |next| ==>
        next[j].revenue == Revenue(InCategory(ss + [x], next[j].category))
        && next[j].quantity == TotalQuantity(InCategory(ss + [x], next[j].category))
  {
    var next := Step(groups, x, k);
    CategoriesDistinct(ss);
    if k == |groups| {
      UnlistedCategoryEmpty(ss, x.category);
    }
    forall j | 0 <= j < |next|
      ensures next[j].revenue == Revenue(InCategory(ss + [x], next[j].category))
      ensures next[j].quantity == TotalQuantity(InCategory(ss + [x], next[j].category))
    {
      if j != k {
        // Before the step, position `j` holds a listed category other than `x`'s.
        assert groups[j].category == Categories(ss)[j];
        if k < |groups| {
          assert x.category == Categories(ss)[k];
        } else {
          assert groups[j].category in Categories(ss);
        }
      }
      StepGroupAt(ss, groups, x, k, j);
    }
  }

  /** One step of the rollup loop turns the rollup of `ss` into the rollup of
      `ss + [x]`. */
  lemma TallyExtend(ss: seq<SaleItem>, groups: seq<CategoryTotal>, x: SaleItem, k: nat)
    requires Tally(ss, groups)
    requires k <= |groups|
    requires k < |groups| ==> groups[k].category == x.category
    requires k == |groups| ==> x.category !in Categories(ss)
    ensures Tally(ss + [x], Step(groups, x, k))
  {
    CategoriesSnoc(ss, x);
    if k < |groups| {
      assert Categories(ss)[k] == x.category;
    }
    StepSums(ss, groups, x, k);
    StepGroups(ss, groups, x, k);
  }
}
