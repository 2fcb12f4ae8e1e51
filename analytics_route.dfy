/**
 * Revenue analytics (GET /api/analytics): a period name is resolved to a time window,
 * the sales created inside it are selected, and revenue, units sold, the sale count and
 * a top-5 ranking of drugs by units sold are computed from them.
 *
 * Times are integer milliseconds; `now` is the clock reading the handler takes.
 */
module AnalyticsRoute {
  import opened Wrappers
  import opened SalesRoute
  import Sorting
  import opened TimeUnits

  /** The inclusive range `[from, to]` of creation times a report covers. */
  datatype Window = Window(from: int, to: int)

  // ---------------------------------------------------------------------------
  // Period resolution
  // ---------------------------------------------------------------------------

  /** `searchParams.get("period") || "24h"`: an absent or empty period means the last 24 hours. */
  function EffectivePeriod(period: Option<string>): string
  {
    if period.None? || period.value == "" then "24h" else period.value
  }

  /** The explicit dates are used only for the period `custom`, and only when both are given. */
  predicate UsesCustomRange(period: Option<string>, startDate: Option<int>, endDate: Option<int>)
  {
    EffectivePeriod(period) == "custom" && startDate.Some? && endDate.Some?
  }

  /** How far back each named period reaches; any other name falls back to 24 hours. */
  function Lookback(period: string): int
  {
    if period == "7d" then 7 * DayMs
    else if period == "30d" then 30 * DayMs
    else if period == "12m" then 365 * DayMs
    else 24 * HourMs
  }

  /** The window the handler queries. */
  function ResolveWindow(period: Option<string>, startDate: Option<int>, endDate: Option<int>, now: int): (w: Window)
    ensures UsesCustomRange(period, startDate, endDate) ==> w == Window(startDate.value, endDate.value)
    ensures !UsesCustomRange(period, startDate, endDate) ==> w.to == now && DayMs <= w.to - w.from <= 365 * DayMs
  {
    if UsesCustomRange(period, startDate, endDate) then Window(startDate.value, endDate.value)
    else Window(now - Lookback(EffectivePeriod(period)), now)
  }

  /** The period table: 24h, 7d, 30d and 12m, with every other request falling back to 24h. */
  lemma PeriodWindows(period: Option<string>, startDate: Option<int>, endDate: Option<int>, now: int)
    ensures var w := ResolveWindow(period, startDate, endDate, now);
            var p := EffectivePeriod(period);
            && (p == "24h" ==> w == Window(now - 24 * HourMs, now))
            && (p == "7d" ==> w == Window(now - 7 * DayMs, now))
            && (p == "30d" ==> w == Window(now - 30 * DayMs, now))
            && (p == "12m" ==> w == Window(now - 365 * DayMs, now))
            && ((p != "24h" && p != "7d" && p != "30d" && p != "12m" && !UsesCustomRange(period, startDate, endDate))
                ==> w == Window(now - 24 * HourMs, now))
            && (period.None? ==> w == Window(now - 24 * HourMs, now))
  {
  }

  // ---------------------------------------------------------------------------
  // Selection and folds
  // ---------------------------------------------------------------------------

  /** `createdAt >= from && createdAt <= to`. */
  predicate InWindow(s: Sale, w: Window)
  {
    w.from <= s.createdAt <= w.to
  }

  /** The sales the query returns. The query fixes no order; the model keeps table order. */
  function SelectSales(sales: seq<Sale>, w: Window): (r: seq<Sale>)
    ensures |r| <= |sales|
  {
    if sales == [] then []
    else
      var init := sales[..|sales| - 1];
      var last := sales[|sales| - 1];
      SelectSales(init, w) + (if InWindow(last, w) then [last] else [])
  }

  /** A sale is selected exactly when it is in the table and inside the window. */
  lemma {:induction false} SelectMembers(sales: seq<Sale>, w: Window)
    ensures forall s :: s in SelectSales(sales, w) <==> s in sales && InWindow(s, w)
  {
    if sales != [] {
      var init := sales[..|sales| - 1];
      SelectMembers(init, w);
      assert sales == init + [sales[|sales| - 1]];
    }
  }

  /** Selection keeps the table's order: it distributes over concatenation. */
  lemma {:induction false} SelectSalesAppend(a: seq<Sale>, b: seq<Sale>, w: Window)
    ensures SelectSales(a + b, w) == SelectSales(a, w) + SelectSales(b, w)
    decreases |b|
  {
    if b == [] {
      assert a + b == a;
    } else {
      SelectSalesAppend(a, b[..|b| - 1], w);
      assert (a + b)[..|a + b| - 1] == a + b[..|b| - 1];
    }
  }

  /** `sales.reduce((sum, sale) => sum + sale.total, 0)`. */
  function TotalRevenue(sales: seq<Sale>): int
  {
    if sales == [] then 0 else TotalRevenue(sales[..|sales| - 1]) + sales[|sales| - 1].total
  }

  /** Units over a list of line items. */
  function Units(items: seq<SaleItem>): int
  {
    if items == [] then 0 else Units(items[..|items| - 1]) + items[|items| - 1].quantity
  }

  /** The nested reduce: units over every line of every sale. */
  function TotalDrugsSold(sales: seq<Sale>): int
  {
    if sales == [] then 0 else TotalDrugsSold(sales[..|sales| - 1]) + Units(sales[|sales| - 1].items)
  }

  /** Every line of every sale, in the order the nested `forEach` visits them. */
  function AllItems(sales: seq<Sale>): seq<SaleItem>
  {
    if sales == [] then [] else AllItems(sales[..|sales| - 1]) + sales[|sales| - 1].items
  }

  lemma {:induction false} UnitsAppend(a: seq<SaleItem>, b: seq<SaleItem>)
    ensures Units(a + b) == Units(a) + Units(b)
    decreases |b|
  {
    if b == [] {
      assert a + b == a;
    } else {
      UnitsAppend(a, b[..|b| - 1]);
      assert (a + b)[..|a + b| - 1] == a + b[..|b| - 1];
    }
  }

  /** Units sold counted sale by sale equal units counted over the flattened lines. */
  lemma {:induction false} TotalDrugsSoldIsUnits(sales: seq<Sale>)
    ensures TotalDrugsSold(sales) == Units(AllItems(sales))
  {
    if sales != [] {
      TotalDrugsSoldIsUnits(sales[..|sales| - 1]);
      UnitsAppend(AllItems(sales[..|sales| - 1]), sales[|sales| - 1].items);
    }
  }

  /** For recorded sales (total = sum of subtotals), revenue is the sum of all line subtotals. */
  lemma {:induction false} RevenueIsSubtotals(sales: seq<Sale>)
    requires forall i :: 0 <= i < |sales| ==> WellFormedSale(sales[i])
    ensures TotalRevenue(sales) == Total(AllItems(sales))
  {
    if sales != [] {
      RevenueIsSubtotals(sales[..|sales| - 1]);
      TotalAppend(AllItems(sales[..|sales| - 1]), sales[|sales| - 1].items);
    }
  }

  // ---------------------------------------------------------------------------
  // Grouping by drug
  // ---------------------------------------------------------------------------

  /** The value stored per drug id in the `drugSales` Map. */
  datatype DrugSales = DrugSales(name: string, quantity: int, revenue: int)

  /** A JavaScript Map: its entries plus the order in which keys were first set. */
  datatype Grouping = Grouping(keys: seq<DrugId>, entries: map<DrugId, DrugSales>)

  /** One visit of the inner `forEach`: add to an existing entry, or create one from this line. */
  function AddLine(g: Grouping, item: SaleItem): Grouping
  {
    if item.drugId in g.entries then
      Grouping(g.keys, g.entries[item.drugId := Bumped(g.entries[item.drugId], item)])
    else
      Grouping(g.keys + [item.drugId], g.entries[item.drugId := Fresh(item)])
  }

  /** The Map after visiting `items` in order, starting from an empty Map. */
  function Group(items: seq<SaleItem>): (r: Grouping)
    ensures |r.keys| <= |items|
  {
    if items == [] then Grouping([], map[]) else AddLine(Group(items[..|items| - 1]), items[|items| - 1])
  }

  /** Revenue of drug `id` over a list of line items. */
  function RevenueOf(items: seq<SaleItem>, id: DrugId): int
  {
    if items == [] then 0
    else
      var last := items[|items| - 1];
      RevenueOf(items[..|items| - 1], id) + (if last.drugId == id then last.subtotal else 0)
  }

  /** Keys in insertion order, each once, and exactly the keys of the entries. */
  ghost predicate WellKeyed(g: Grouping)
  {
    && (forall i, j :: 0 <= i < j < |g.keys| ==> g.keys[i] != g.keys[j])
    && (forall k :: k in g.keys <==> k in g.entries)
  }

  /** The grouped Map has one entry, and one key, per drug id that occurs in the lines. */
  lemma {:induction false} GroupKeys(items: seq<SaleItem>)
    ensures WellKeyed(Group(items))
    ensures forall k :: k in Group(items).entries <==> exists i :: 0 <= i < |items| && items[i].drugId == k
  {
    if items != [] {
      var init := items[..|items| - 1];
      GroupKeys(init);
      assert forall i :: 0 <= i < |init| ==> init[i] == items[i];
    }
  }

  /**
   * The Map's keys are in insertion order: every line of the `b`-th key comes after some
   * line of the `a`-th key, for `a < b`.
   */
  lemma {:induction false} GroupKeysOrder(items: seq<SaleItem>, a: nat, b: nat)
    requires a < b < |Group(items).keys|
    ensures forall i :: 0 <= i < |items| && items[i].drugId == Group(items).keys[b] ==>
              exists j :: 0 <= j < i && items[j].drugId == Group(items).keys[a]
  {
    var init := items[..|items| - 1];
    var g0 := Group(init);
    var keys := Group(items).keys;
    GroupKeys(init);
    assert forall m :: 0 <= m < |init| ==> init[m] == items[m];
    if b < |g0.keys| {
      assert keys[a] == g0.keys[a] && keys[b] == g0.keys[b];
      GroupKeysOrder(init, a, b);
      forall i | 0 <= i < |items| && items[i].drugId == keys[b]
        ensures exists j :: 0 <= j < i && items[j].drugId == keys[a]
      {
        if i == |init| {
          assert g0.keys[b] in g0.keys;
          var i' :| 0 <= i' < |init| && init[i'].drugId == keys[b];
          var j :| 0 <= j < i' && init[j].drugId == keys[a];
          assert items[j].drugId == keys[a];
        } else {
          assert init[i].drugId == keys[b];
          var j :| 0 <= j < i && init[j].drugId == keys[a];
          assert items[j].drugId == keys[a];
        }
      }
    } else {
      assert keys == g0.keys + [items[|items| - 1].drugId];
      assert keys[a] == g0.keys[a] && g0.keys[a] in g0.keys;
      var j :| 0 <= j < |init| && init[j].drugId == keys[a];
      assert items[j].drugId == keys[a];
      forall i | 0 <= i < |items| && items[i].drugId == keys[b]
        ensures exists j :: 0 <= j < i && items[j].drugId == keys[a]
      {
        if i < |init| {
          assert false;
        }
      }
    }
  }

  /**
   * Each grouped entry holds its drug id's totals: quantity is the sum of the id's line
   * quantities and revenue the sum of its line subtotals.
   */
  lemma {:induction false} GroupTotals(items: seq<SaleItem>)
    ensures forall k :: k in Group(items).entries ==>
              && Group(items).entries[k].quantity == UnitsOf(items, k)
              && Group(items).entries[k].revenue == RevenueOf(items, k)
  {
    if items != [] {
      var init := items[..|items| - 1];
      GroupTotals(init);
      GroupKeys(init);
      forall k | k in Group(items).entries
        ensures Group(items).entries[k].quantity == UnitsOf(items, k)
        ensures Group(items).entries[k].revenue == RevenueOf(items, k)
      {
        if k !in Group(init).entries {
          AbsentIdGroupsZero(init, k);
        }
      }
    }
  }

  /** An id on no line has no units and no revenue. */
  lemma {:induction false} AbsentIdGroupsZero(items: seq<SaleItem>, id: DrugId)
    requires forall i :: 0 <= i < |items| ==> items[i].drugId != id
    ensures UnitsOf(items, id) == 0 && RevenueOf(items, id) == 0
  {
    if items != [] {
      AbsentIdGroupsZero(items[..|items| - 1], id);
    }
  }

  /** Line `i` is the first of drug id `k` and carries `name`. */
  predicate FirstLineNamed(items: seq<SaleItem>, k: DrugId, name: string, i: int)
  {
    && 0 <= i < |items| && items[i].drugId == k && items[i].drugName == name
    && forall j :: 0 <= j < i ==> items[j].drugId != k
  }

  /** One more line keeps the names of the ids already in the Map, and names a new id after itself. */
  lemma AddLineName(g: Grouping, item: SaleItem, k: DrugId)
    requires k in AddLine(g, item).entries
    ensures k in g.entries ==> AddLine(g, item).entries[k].name == g.entries[k].name
    ensures k !in g.entries ==> k == item.drugId && AddLine(g, item).entries[k].name == item.drugName
  {
  }

  /** A first line of `k` among the earlier lines stays its first line. */
  lemma FirstLineKept(items: seq<SaleItem>, k: DrugId, name: string, i: int)
    requires items != [] && FirstLineNamed(items[..|items| - 1], k, name, i)
    ensures FirstLineNamed(items, k, name, i)
  {
    var init := items[..|items| - 1];
    assert forall j :: 0 <= j <= i ==> items[j] == init[j];
  }

  /** A line whose id no earlier line has is that id's first line. */
  lemma FirstLineLast(init: seq<SaleItem>, last: SaleItem)
    requires forall j :: 0 <= j < |init| ==> init[j].drugId != last.drugId
    ensures FirstLineNamed(init + [last], last.drugId, last.drugName, |init|)
  {
    var items := init + [last];
    assert forall j :: 0 <= j < |init| ==> items[j] == init[j];
  }

  /** Each grouped entry is named after the first line, in visiting order, of its drug id. */
  lemma {:induction false} GroupNames(items: seq<SaleItem>)
    ensures forall k :: k in Group(items).entries ==>
              exists i :: FirstLineNamed(items, k, Group(items).entries[k].name, i)
  {
    if items != [] {
      var init := items[..|items| - 1];
      var last := items[|items| - 1];
      GroupNames(init);
      GroupKeys(init);
      forall k | k in Group(items).entries
        ensures exists i :: FirstLineNamed(items, k, Group(items).entries[k].name, i)
      {
        AddLineName(Group(init), last, k);
        if k in Group(init).entries {
          var i :| FirstLineNamed(init, k, Group(init).entries[k].name, i);
          FirstLineKept(items, k, Group(init).entries[k].name, i);
        } else {
          assert items == init + [last];
          FirstLineLast(init, last);
        }
      }
    }
  }

  /** Sum of one field over the entries, in key order. */
  function SumOf(keys: seq<DrugId>, entries: map<DrugId, DrugSales>, f: DrugSales -> int): int
  {
    if keys == [] then 0
    else
      var last := keys[|keys| - 1];
      SumOf(keys[..|keys| - 1], entries, f) + (if last in entries then f(entries[last]) else 0)
  }

  /** Entries that agree on every listed key give the same sum. */
  lemma {:induction false} SumOfAgree(keys: seq<DrugId>, a: map<DrugId, DrugSales>, b: map<DrugId, DrugSales>, f: DrugSales -> int)
    requires forall k :: k in keys ==> (k in a <==> k in b) && (k in a ==> a[k] == b[k])
    ensures SumOf(keys, a, f) == SumOf(keys, b, f)
  {
    if keys != [] {
      SumOfAgree(keys[..|keys| - 1], a, b, f);
    }
  }

  /** Changing the entry of one listed key (listed once) changes the sum by the same amount. */
  lemma {:induction false} SumOfBump(keys: seq<DrugId>, entries: map<DrugId, DrugSales>, id: DrugId, v: DrugSales, f: DrugSales -> int)
    requires forall i, j :: 0 <= i < j < |keys| ==> keys[i] != keys[j]
    requires id in keys && id in entries
    ensures SumOf(keys, entries[id := v], f) == SumOf(keys, entries, f) + f(v) - f(entries[id])
  {
    var init := keys[..|keys| - 1];
    var last := keys[|keys| - 1];
    if last == id {
      assert forall k :: k in init ==> k != id by {
        forall k | k in init ensures k != id {
          var i :| 0 <= i < |init| && init[i] == k;
          assert keys[i] == k;
        }
      }
      SumOfAgree(init, entries[id := v], entries, f);
    } else {
      assert id in init by {
        var i :| 0 <= i < |keys| && keys[i] == id;
        assert i < |keys| - 1;
        assert init[i] == id;
      }
      SumOfBump(init, entries, id, v, f);
    }
  }

  function QuantityOfEntry(e: DrugSales): int { e.quantity }

  function RevenueOfEntry(e: DrugSales): int { e.revenue }

  /** The entry an existing drug id holds after one more of its lines. */
  function Bumped(e: DrugSales, item: SaleItem): DrugSales
  {
    e.(quantity := e.quantity + item.quantity, revenue := e.revenue + item.subtotal)
  }

  /** The entry a drug id's first line creates. */
  function Fresh(item: SaleItem): DrugSales
  {
    DrugSales(item.drugName, item.quantity, item.subtotal)
  }

  /** A line of a drug id already in the Map adds its contribution to that entry only. */
  lemma AddLineSumExisting(g: Grouping, item: SaleItem, f: DrugSales -> int)
    requires WellKeyed(g) && item.drugId in g.entries
    ensures SumOf(AddLine(g, item).keys, AddLine(g, item).entries, f)
            == SumOf(g.keys, g.entries, f) + f(Bumped(g.entries[item.drugId], item)) - f(g.entries[item.drugId])
  {
    SumOfBump(g.keys, g.entries, item.drugId, Bumped(g.entries[item.drugId], item), f);
  }

  /** A line of a new drug id appends its key and its fresh entry. */
  lemma AddLineSumNew(g: Grouping, item: SaleItem, f: DrugSales -> int)
    requires WellKeyed(g) && item.drugId !in g.entries
    ensures SumOf(AddLine(g, item).keys, AddLine(g, item).entries, f) == SumOf(g.keys, g.entries, f) + f(Fresh(item))
  {
    var keys := g.keys + [item.drugId];
    assert keys[..|keys| - 1] == g.keys;
    SumOfAgree(g.keys, g.entries[item.drugId := Fresh(item)], g.entries, f);
  }

  /** Visiting one more line changes the sum of a field by that line's contribution. */
  lemma AddLineSum(g: Grouping, item: SaleItem, f: DrugSales -> int, delta: int)
    requires WellKeyed(g)
    requires item.drugId in g.entries ==> f(Bumped(g.entries[item.drugId], item)) == f(g.entries[item.drugId]) + delta
    requires item.drugId !in g.entries ==> f(Fresh(item)) == delta
    ensures SumOf(AddLine(g, item).keys, AddLine(g, item).entries, f) == SumOf(g.keys, g.entries, f) + delta
  {
    if item.drugId in g.entries {
      AddLineSumExisting(g, item, f);
    } else {
      AddLineSumNew(g, item, f);
    }
  }

  /** The grouped quantities add up to the units of all lines. */
  lemma {:induction false} GroupQuantitySum(items: seq<SaleItem>)
    ensures SumOf(Group(items).keys, Group(items).entries, QuantityOfEntry) == Units(items)
  {
    if items != [] {
      var init := items[..|items| - 1];
      var last := items[|items| - 1];
      GroupQuantitySum(init);
      GroupKeys(init);
      AddLineSum(Group(init), last, QuantityOfEntry, last.quantity);
    }
  }

  /** The grouped revenues add up to the subtotals of all lines. */
  lemma {:induction false} GroupRevenueSum(items: seq<SaleItem>)
    ensures SumOf(Group(items).keys, Group(items).entries, RevenueOfEntry) == Total(items)
  {
    if items != [] {
      var init := items[..|items| - 1];
      var last := items[|items| - 1];
      GroupRevenueSum(init);
      GroupKeys(init);
      AddLineSum(Group(init), last, RevenueOfEntry, last.subtotal);
    }
  }

  /** Visiting a list and then one more line. */
  lemma GroupSnoc(items: seq<SaleItem>, item: SaleItem)
    ensures Group(items + [item]) == AddLine(Group(items), item)
  {
    assert (items + [item])[..|items|] == items;
  }

  /** The lines of one more sale come after those of the earlier sales. */
  lemma AllItemsSnoc(sales: seq<Sale>, i: nat)
    requires i < |sales|
    ensures AllItems(sales[..i + 1]) == AllItems(sales[..i]) + sales[i].items
  {
    assert sales[..i + 1][..i] == sales[..i];
  }

  /** Visiting line `j` of a sale groups one more line. */
  lemma VisitStep(seen: seq<SaleItem>, items: seq<SaleItem>, j: nat)
    requires j < |items|
    ensures Group(seen + items[..j + 1]) == AddLine(Group(seen + items[..j]), items[j])
  {
    assert seen + items[..j + 1] == (seen + items[..j]) + [items[j]];
    GroupSnoc(seen + items[..j], items[j]);
  }

  /** The inner `forEach` over one sale's lines, updating the Map in place. */
  method VisitLines(keys0: seq<DrugId>, entries0: map<DrugId, DrugSales>, items: seq<SaleItem>, ghost seen: seq<SaleItem>)
    returns (keys: seq<DrugId>, entries: map<DrugId, DrugSales>)
    requires Grouping(keys0, entries0) == Group(seen)
    ensures Grouping(keys, entries) == Group(seen + items)
  {
    keys, entries := keys0, entries0;
    assert seen + items[..0] == seen;
    var j := 0;
    while j < |items|
      invariant 0 <= j <= |items|
      invariant Grouping(keys, entries) == Group(seen + items[..j])
    {
      var item := items[j];
      ghost var before := Grouping(keys, entries);
      VisitStep(seen, items, j);
      if item.drugId in entries {
        entries := entries[item.drugId := Bumped(entries[item.drugId], item)];
      } else {
        keys := keys + [item.drugId];
        entries := entries[item.drugId := Fresh(item)];
      }
      assert Grouping(keys, entries) == AddLine(before, item);
      j := j + 1;
    }
    assert items[..j] == items;
  }

  /** The outer `forEach` over the selected sales, filling the `drugSales` Map. */
  method GroupByDrug(sales: seq<Sale>) returns (g: Grouping)
    ensures g == Group(AllItems(sales))
  {
    var keys: seq<DrugId> := [];
    var entries: map<DrugId, DrugSales> := map[];
    var i := 0;
    while i < |sales|
      invariant 0 <= i <= |sales|
      invariant Grouping(keys, entries) == Group(AllItems(sales[..i]))
    {
      keys, entries := VisitLines(keys, entries, sales[i].items, AllItems(sales[..i]));
      AllItemsSnoc(sales, i);
      i := i + 1;
    }
    assert sales[..i] == sales;
    g := Grouping(keys, entries);
  }

  // ---------------------------------------------------------------------------
  // Ranking and the report
  // ---------------------------------------------------------------------------

  /** `Array.from(drugSales.values())`: the entries in key insertion order. */
  function ValuesOf(keys: seq<DrugId>, entries: map<DrugId, DrugSales>): seq<DrugSales>
  {
    if keys == [] then []
    else
      var last := keys[|keys| - 1];
      ValuesOf(keys[..|keys| - 1], entries) + (if last in entries then [entries[last]] else [])
  }

  /**
   * Every value listed is the entry of one of the keys and, when every key has an entry,
   * the values are the keys' entries position by position.
   */
  lemma {:induction false} ValuesOfEntries(keys: seq<DrugId>, entries: map<DrugId, DrugSales>)
    ensures forall v :: v in ValuesOf(keys, entries) ==> exists k :: k in keys && k in entries && entries[k] == v
    ensures (forall k :: k in keys ==> k in entries) ==> |ValuesOf(keys, entries)| == |keys|
    ensures (forall k :: k in keys ==> k in entries) ==>
              forall i :: 0 <= i < |keys| ==> ValuesOf(keys, entries)[i] == entries[keys[i]]
  {
    if keys != [] {
      ValuesOfEntries(keys[..|keys| - 1], entries);
      assert forall k :: k in keys[..|keys| - 1] ==> k in keys;
    }
  }

  /** Sorted by quantity, highest first, and cut to five. */
  function TopSelling(g: Grouping): (r: seq<DrugSales>)
    ensures |r| <= 5
  {
    Sorting.Take(Sorting.SortDesc(ValuesOf(g.keys, g.entries), QuantityOfEntry), 5)
  }

  /** The JSON body the handler returns. */
  datatype Report = Report(
    totalRevenue: int,
    totalDrugsSold: int,
    salesCount: nat,
    topSellingDrugs: seq<DrugSales>,
    period: string,
    window: Window)

  /** The report for a sale table, as a function of the request and the clock. */
  function ReportOf(sales: seq<Sale>, period: Option<string>, startDate: Option<int>, endDate: Option<int>, now: int): Report
  {
    var w := ResolveWindow(period, startDate, endDate, now);
    var selected := SelectSales(sales, w);
    Report(TotalRevenue(selected), TotalDrugsSold(selected), |selected|,
           TopSelling(Group(AllItems(selected))), EffectivePeriod(period), w)
  }

  /** GET /api/analytics over the sale table `sales`. */
  method GetAnalytics(sales: seq<Sale>, period: Option<string>, startDate: Option<int>, endDate: Option<int>, now: int)
    returns (report: Report)
    ensures report == ReportOf(sales, period, startDate, endDate, now)
    ensures |report.topSellingDrugs| <= 5
    ensures Sorting.NonIncreasing(report.topSellingDrugs, QuantityOfEntry)
  {
    var p := EffectivePeriod(period);
    var w := ResolveWindow(period, startDate, endDate, now);
    var selected := SelectSales(sales, w);
    var totalRevenue := TotalRevenue(selected);
    var totalDrugsSold := TotalDrugsSold(selected);
    var g := GroupByDrug(selected);
    var sorted := Sorting.SortDesc(ValuesOf(g.keys, g.entries), QuantityOfEntry);
    Sorting.TakeOfSortedIsLargest(sorted, 5, QuantityOfEntry);
    var top := Sorting.Take(sorted, 5);
    report := Report(totalRevenue, totalDrugsSold, |selected|, top, p, w);
  }

  /** A window with no sale in it reports zeros and an empty ranking. */
  lemma EmptyWindowReport(sales: seq<Sale>, period: Option<string>, startDate: Option<int>, endDate: Option<int>, now: int)
    requires forall i :: 0 <= i < |sales| ==> !InWindow(sales[i], ResolveWindow(period, startDate, endDate, now))
    ensures var r := ReportOf(sales, period, startDate, endDate, now);
            r.totalRevenue == 0 && r.totalDrugsSold == 0 && r.salesCount == 0 && r.topSellingDrugs == []
  {
    SelectNone(sales, ResolveWindow(period, startDate, endDate, now));
  }

  /** Nothing is selected when no sale lies in the window. */
  lemma {:induction false} SelectNone(sales: seq<Sale>, w: Window)
    requires forall i :: 0 <= i < |sales| ==> !InWindow(sales[i], w)
    ensures SelectSales(sales, w) == []
  {
    if sales != [] {
      SelectNone(sales[..|sales| - 1], w);
    }
  }

  /**
   * The ranking has at most five entries, highest quantity first, drawn from the grouped
   * values, and none smaller than a value left out.
   */
  lemma TopSellingRanks(g: Grouping)
    ensures var top := TopSelling(g);
            var values := ValuesOf(g.keys, g.entries);
            && |top| == (if |values| <= 5 then |values| else 5)
            && Sorting.NonIncreasing(top, QuantityOfEntry)
            && multiset(top) <= multiset(values)
            && (forall x, y :: x in top && y in multiset(values) - multiset(top) ==> QuantityOfEntry(y) <= QuantityOfEntry(x))
  {
    var values := ValuesOf(g.keys, g.entries);
    var sorted := Sorting.SortDesc(values, QuantityOfEntry);
    Sorting.TakeOfSortedIsLargest(sorted, 5, QuantityOfEntry);
    assert multiset(sorted) == multiset(values);
  }

  /** Every ranked entry is the grouped entry of some drug id. */
  lemma TopSellingFromEntries(g: Grouping)
    ensures forall e :: e in TopSelling(g) ==> exists k :: k in g.entries && g.entries[k] == e
  {
    TopSellingRanks(g);
    ValuesOfEntries(g.keys, g.entries);
    var values := ValuesOf(g.keys, g.entries);
    forall e | e in TopSelling(g)
      ensures exists k :: k in g.entries && g.entries[k] == e
    {
      assert e in multiset(TopSelling(g));
      assert e in multiset(values);
      assert e in values;
    }
  }

  /**
   * For every sale table, the grouped quantities add up to `totalDrugsSold` and the
   * ranking is the top five of that grouping.
   */
  lemma ReportUnitsConsistent(sales: seq<Sale>, period: Option<string>, startDate: Option<int>, endDate: Option<int>, now: int)
    ensures var r := ReportOf(sales, period, startDate, endDate, now);
            var g := Group(AllItems(SelectSales(sales, r.window)));
            && SumOf(g.keys, g.entries, QuantityOfEntry) == r.totalDrugsSold
            && r.topSellingDrugs == TopSelling(g)
  {
    var w := ResolveWindow(period, startDate, endDate, now);
    var selected := SelectSales(sales, w);
    GroupQuantitySum(AllItems(selected));
    TotalDrugsSoldIsUnits(selected);
  }

  /**
   * The report's totals agree with its grouping: the grouped quantities add up to
   * `totalDrugsSold` and, for recorded sales, the grouped revenues to `totalRevenue`.
   */
  lemma ReportConsistent(sales: seq<Sale>, period: Option<string>, startDate: Option<int>, endDate: Option<int>, now: int)
    requires forall i :: 0 <= i < |sales| ==> WellFormedSale(sales[i])
    ensures var r := ReportOf(sales, period, startDate, endDate, now);
            var g := Group(AllItems(SelectSales(sales, r.window)));
            && SumOf(g.keys, g.entries, QuantityOfEntry) == r.totalDrugsSold
            && SumOf(g.keys, g.entries, RevenueOfEntry) == r.totalRevenue
            && r.topSellingDrugs == TopSelling(g)
  {
    var w := ResolveWindow(period, startDate, endDate, now);
    var selected := SelectSales(sales, w);
    var items := AllItems(selected);
    GroupQuantitySum(items);
    GroupRevenueSum(items);
    TotalDrugsSoldIsUnits(selected);
    SelectMembers(sales, w);
    forall i | 0 <= i < |selected| ensures WellFormedSale(selected[i]) {
      assert selected[i] in sales;
    }
    RevenueIsSubtotals(selected);
  }
}
