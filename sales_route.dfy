/**
 * Sale creation (POST /api/sales): the requested lines are checked in order against
 * the Drug table, snapshot line items and an order total are computed, and then the
 * Sale row and the stock decrements are applied as one all-or-nothing step.
 *
 * Prices and subtotals are whole minor currency units; the database is an in-memory
 * map of drugs plus the sequence of recorded sales.
 */
module SalesRoute {
  import opened Wrappers

  type DrugId = string

  /** A row of the Drug table, as far as the sale flow reads it. */
  datatype Drug = Drug(id: DrugId, name: string, price: int, quantity: int)

  /** One element of `items` in the request body `{ items: [{ drugId, quantity }] }`. */
  datatype LineRequest = LineRequest(drugId: DrugId, quantity: int)

  /** A SaleItem row: drug name and unit price are snapshots taken at sale time. */
  datatype SaleItem = SaleItem(drugId: DrugId, drugName: string, quantity: int, price: int, subtotal: int)

  datatype Sale = Sale(id: nat, total: int, createdAt: int, items: seq<SaleItem>)

  datatype SaleError =
    | ItemsRequired
    | DrugNotFound(drugId: DrugId)
    | InsufficientStock(drugName: string, available: int, requested: int)
    | InvalidQuantity(drugId: DrugId, requested: int)

  /** The HTTP status each error is reported with. */
  function Status(e: SaleError): int
  {
    match e
    case ItemsRequired => 400
    case DrugNotFound(_) => 404
    case InsufficientStock(_, _, _) => 400
    case InvalidQuantity(_, _) => 400
  }

  /** A body whose `items` is missing, not an array, or empty is refused with 400. */
  predicate ItemsMissing(body: Option<seq<LineRequest>>)
  {
    body.None? || body.value == []
  }

  /** The line item created for `quantity` units of drug `d`. */
  function Snapshot(d: Drug, quantity: int): SaleItem
  {
    SaleItem(d.id, d.name, quantity, d.price, d.price * quantity)
  }

  /** The check one line undergoes, against the stock as read before any decrement. */
  function CheckLine(drugs: map<DrugId, Drug>, line: LineRequest): Result<SaleItem, SaleError>
  {
    if line.drugId !in drugs then Failure(DrugNotFound(line.drugId))
    else
      var d := drugs[line.drugId];
      if d.quantity < line.quantity then Failure(InsufficientStock(d.name, d.quantity, line.quantity))
      else Success(Snapshot(d, line.quantity))
  }

  /** The validation loop: lines in list order, stopping at the first failing one. */
  function Validate(drugs: map<DrugId, Drug>, lines: seq<LineRequest>): Result<seq<SaleItem>, SaleError>
  {
    if lines == [] then Success([])
    else
      match Validate(drugs, lines[..|lines| - 1])
      case Failure(e) => Failure(e)
      case Success(items) =>
        match CheckLine(drugs, lines[|lines| - 1])
        case Failure(e) => Failure(e)
        case Success(item) => Success(items + [item])
  }

  /** Sum of the subtotals of a list of line items. */
  function Total(items: seq<SaleItem>): int
  {
    if items == [] then 0 else Total(items[..|items| - 1]) + items[|items| - 1].subtotal
  }

  /** Total units the lines request of drug `id`. */
  function Requested(lines: seq<LineRequest>, id: DrugId): int
  {
    if lines == [] then 0
    else
      var last := lines[|lines| - 1];
      Requested(lines[..|lines| - 1], id) + (if last.drugId == id then last.quantity else 0)
  }

  /** The Drug table after every line's drug has been decremented by its quantity. */
  function AfterDecrement(drugs: map<DrugId, Drug>, lines: seq<LineRequest>): (r: map<DrugId, Drug>)
    ensures r.Keys == drugs.Keys
  {
    map k | k in drugs :: drugs[k].(quantity := drugs[k].quantity - Requested(lines, k))
  }

  /** One `decrement`: the stock of `line`'s drug goes down by `line.quantity`. */
  function Decremented(stock: map<DrugId, Drug>, line: LineRequest): map<DrugId, Drug>
    requires line.drugId in stock
  {
    stock[line.drugId := stock[line.drugId].(quantity := stock[line.drugId].quantity - line.quantity)]
  }

  /** What the handler answers and records for a request, given the state it reads. */
  function Outcome(drugs: map<DrugId, Drug>, saleId: nat, body: Option<seq<LineRequest>>, now: int): Result<Sale, SaleError>
  {
    if ItemsMissing(body) then Failure(ItemsRequired)
    else
      match Validate(drugs, body.value)
      case Failure(e) => Failure(e)
      case Success(items) => Success(Sale(saleId, Total(items), now, items))
  }

  /** A table in which each drug is stored under its own id. */
  ghost predicate KeyedById(drugs: map<DrugId, Drug>)
  {
    forall k :: k in drugs ==> drugs[k].id == k
  }

  /** The per-sale facts that hold when a sale is recorded. */
  ghost predicate WellFormedSale(s: Sale)
  {
    && s.total == Total(s.items)
    && forall i :: 0 <= i < |s.items| ==> s.items[i].subtotal == s.items[i].price * s.items[i].quantity
  }

  // ---------------------------------------------------------------------------
  // Properties of the validation and of the decrement
  // ---------------------------------------------------------------------------

  /** A failure in a prefix of the lines is the failure of the whole list. */
  lemma {:induction false} ValidateFailurePersists(drugs: map<DrugId, Drug>, lines: seq<LineRequest>, k: nat)
    requires k <= |lines|
    requires Validate(drugs, lines[..k]).Failure?
    ensures Validate(drugs, lines) == Validate(drugs, lines[..k])
    decreases |lines| - k
  {
    if k < |lines| {
      assert lines[..k + 1][..k] == lines[..k];
      ValidateFailurePersists(drugs, lines, k + 1);
    } else {
      assert lines[..k] == lines;
    }
  }

  /**
   * Validation succeeds exactly when every line passes its check, and it then yields the
   * lines' snapshots in request order, one per line.
   */
  lemma {:induction false} ValidateSucceeds(drugs: map<DrugId, Drug>, lines: seq<LineRequest>)
    ensures Validate(drugs, lines).Success? <==> forall i :: 0 <= i < |lines| ==> CheckLine(drugs, lines[i]).Success?
    ensures Validate(drugs, lines).Success? ==>
              && |Validate(drugs, lines).value| == |lines|
              && forall i :: 0 <= i < |lines| ==> Validate(drugs, lines).value[i] == CheckLine(drugs, lines[i]).value
  {
    if lines != [] {
      var init := lines[..|lines| - 1];
      ValidateSucceeds(drugs, init);
      assert forall i :: 0 <= i < |init| ==> init[i] == lines[i];
    }
  }

  /**
   * A failed validation reports the error of the first line, in list order, whose check fails.
   */
  lemma {:induction false} ValidateFirstFailure(drugs: map<DrugId, Drug>, lines: seq<LineRequest>)
    requires Validate(drugs, lines).Failure?
    ensures exists k :: 0 <= k < |lines|
                        && (forall j :: 0 <= j < k ==> CheckLine(drugs, lines[j]).Success?)
                        && CheckLine(drugs, lines[k]) == Failure(Validate(drugs, lines).error)
  {
    var init := lines[..|lines| - 1];
    assert forall i :: 0 <= i < |init| ==> init[i] == lines[i];
    if Validate(drugs, init).Failure? {
      ValidateFirstFailure(drugs, init);
      var k :| 0 <= k < |init|
               && (forall j :: 0 <= j < k ==> CheckLine(drugs, init[j]).Success?)
               && CheckLine(drugs, init[k]) == Failure(Validate(drugs, init).error);
      assert CheckLine(drugs, lines[k]) == Failure(Validate(drugs, lines).error);
    } else {
      ValidateSucceeds(drugs, init);
      var k := |lines| - 1;
      assert CheckLine(drugs, lines[k]) == Failure(Validate(drugs, lines).error);
    }
  }

  /** The line items of a validated request each carry `subtotal == price * quantity`. */
  lemma ValidatedSubtotals(drugs: map<DrugId, Drug>, lines: seq<LineRequest>)
    requires Validate(drugs, lines).Success?
    ensures forall i :: 0 <= i < |Validate(drugs, lines).value| ==>
              var it := Validate(drugs, lines).value[i];
              it.subtotal == it.price * it.quantity
  {
    ValidateSucceeds(drugs, lines);
  }

  /** With no lines nothing is decremented. */
  lemma AfterDecrementNone(drugs: map<DrugId, Drug>)
    ensures AfterDecrement(drugs, []) == drugs
  {
  }

  /** Decrementing by `lines + [line]` is decrementing by `lines`, then by `line` alone. */
  lemma AfterDecrementStep(drugs: map<DrugId, Drug>, lines: seq<LineRequest>, line: LineRequest)
    requires line.drugId in drugs
    ensures var before := AfterDecrement(drugs, lines);
            AfterDecrement(drugs, lines + [line])
              == Decremented(before, line)
  {
    assert (lines + [line])[..|lines|] == lines;
  }

  /** A drug no line names keeps its stock. */
  lemma {:induction false} RequestedAbsent(lines: seq<LineRequest>, id: DrugId)
    requires forall i :: 0 <= i < |lines| ==> lines[i].drugId != id
    ensures Requested(lines, id) == 0
  {
    if lines != [] {
      RequestedAbsent(lines[..|lines| - 1], id);
    }
  }

  /**
   * With pairwise distinct drug ids, a request that passes validation leaves no stock
   * negative (given none was negative before).
   */
  lemma {:induction false} DistinctLinesKeepStock(drugs: map<DrugId, Drug>, lines: seq<LineRequest>)
    requires forall k :: k in drugs ==> drugs[k].quantity >= 0
    requires forall i, j :: 0 <= i < j < |lines| ==> lines[i].drugId != lines[j].drugId
    requires Validate(drugs, lines).Success?
    ensures forall k :: k in drugs ==> Requested(lines, k) <= drugs[k].quantity
    ensures forall k :: k in AfterDecrement(drugs, lines) ==> AfterDecrement(drugs, lines)[k].quantity >= 0
  {
    if lines != [] {
      var init := lines[..|lines| - 1];
      var last := lines[|lines| - 1];
      assert forall i :: 0 <= i < |init| ==> init[i] == lines[i];
      DistinctLinesKeepStock(drugs, init);
      RequestedAbsent(init, last.drugId);
    }
  }

  /**
   * The same drug named on two lines: each line passes against the stock read before any
   * decrement, so a stock of 1 is sold twice and ends at -1.
   */
  lemma DuplicateLinesOverdraw()
    ensures var drugs := map["a" := Drug("a", "Aspirin", 100, 1)];
            var lines := [LineRequest("a", 1), LineRequest("a", 1)];
            && Validate(drugs, lines).Success?
            && AfterDecrement(drugs, lines)["a"].quantity == -1
  {
    var drugs := map["a" := Drug("a", "Aspirin", 100, 1)];
    var lines := [LineRequest("a", 1), LineRequest("a", 1)];
    assert lines[..1] == [LineRequest("a", 1)];
    assert lines[..1][..0] == [];
    assert Validate(drugs, lines[..1]).Success?;
    assert Requested(lines[..1], "a") == 1;
  }

  /**
   * No line is required to have a positive quantity: a negative quantity passes the stock
   * check, yields a negative total and raises the stock.
   */
  lemma NegativeQuantityAccepted()
    ensures var drugs := map["a" := Drug("a", "Aspirin", 100, 1)];
            var body := Some([LineRequest("a", -5)]);
            && Outcome(drugs, 0, body, 0).Success?
            && Outcome(drugs, 0, body, 0).value.total == -500
            && AfterDecrement(drugs, body.value)["a"].quantity == 6
  {
    var lines := [LineRequest("a", -5)];
    assert lines[..0] == [];
  }

  // ---------------------------------------------------------------------------
  // Corrected validation: each line is checked against the stock that remains after the
  // lines before it, and quantities must be positive.
  // ---------------------------------------------------------------------------

  /** The corrected check of one line against the remaining stock (`drugs` keeps the read rows). */
  function CheckLineRemaining(drugs: map<DrugId, Drug>, remaining: map<DrugId, Drug>, line: LineRequest): Result<SaleItem, SaleError>
  {
    if line.drugId !in drugs || line.drugId !in remaining then Failure(DrugNotFound(line.drugId))
    else if line.quantity <= 0 then Failure(InvalidQuantity(line.drugId, line.quantity))
    else
      var d := remaining[line.drugId];
      if d.quantity < line.quantity then Failure(InsufficientStock(d.name, d.quantity, line.quantity))
      else Success(Snapshot(drugs[line.drugId], line.quantity))
  }

  /** The corrected validation loop, returning the line items on success. */
  function ValidateRemaining(drugs: map<DrugId, Drug>, lines: seq<LineRequest>): Result<seq<SaleItem>, SaleError>
  {
    if lines == [] then Success([])
    else
      match ValidateRemaining(drugs, lines[..|lines| - 1])
      case Failure(e) => Failure(e)
      case Success(items) =>
        match CheckLineRemaining(drugs, AfterDecrement(drugs, lines[..|lines| - 1]), lines[|lines| - 1])
        case Failure(e) => Failure(e)
        case Success(item) => Success(items + [item])
  }

  /** The corrected handler's answer. */
  function OutcomeChecked(drugs: map<DrugId, Drug>, saleId: nat, body: Option<seq<LineRequest>>, now: int): Result<Sale, SaleError>
  {
    if ItemsMissing(body) then Failure(ItemsRequired)
    else
      match ValidateRemaining(drugs, body.value)
      case Failure(e) => Failure(e)
      case Success(items) => Success(Sale(saleId, Total(items), now, items))
  }

  /** One more line in the corrected validation: check it against the stock the earlier lines leave. */
  lemma ValidateRemainingSnoc(drugs: map<DrugId, Drug>, lines: seq<LineRequest>, line: LineRequest)
    ensures ValidateRemaining(drugs, lines + [line])
            == match ValidateRemaining(drugs, lines)
               case Failure(e) => Failure(e)
               case Success(items) =>
                 match CheckLineRemaining(drugs, AfterDecrement(drugs, lines), line)
                 case Failure(e) => Failure(e)
                 case Success(item) => Success(items + [item])
  {
    assert (lines + [line])[..|lines|] == lines;
  }

  /** A failure in a prefix of the lines is the corrected validation's failure too. */
  lemma {:induction false} ValidateRemainingFailurePersists(drugs: map<DrugId, Drug>, lines: seq<LineRequest>, k: nat)
    requires k <= |lines|
    requires ValidateRemaining(drugs, lines[..k]).Failure?
    ensures ValidateRemaining(drugs, lines) == ValidateRemaining(drugs, lines[..k])
    decreases |lines| - k
  {
    if k < |lines| {
      assert lines[..k + 1][..k] == lines[..k];
      ValidateRemainingFailurePersists(drugs, lines, k + 1);
    } else {
      assert lines[..k] == lines;
    }
  }

  /** The corrected validation accepts only positive quantities. */
  lemma {:induction false} ValidateRemainingPositive(drugs: map<DrugId, Drug>, lines: seq<LineRequest>)
    ensures ValidateRemaining(drugs, lines).Success? ==> forall i :: 0 <= i < |lines| ==> lines[i].quantity > 0
  {
    if lines != [] {
      var init := lines[..|lines| - 1];
      ValidateRemainingPositive(drugs, init);
      assert forall i :: 0 <= i < |init| ==> init[i] == lines[i];
    }
  }

  /**
   * The first line with a quantity of 0 or less, after earlier lines that pass, is refused
   * with `InvalidQuantity`, whatever follows it.
   */
  lemma ValidateRemainingRefusesNonPositive(drugs: map<DrugId, Drug>, lines: seq<LineRequest>, i: nat)
    requires i < |lines| && ValidateRemaining(drugs, lines[..i]).Success?
    requires lines[i].drugId in drugs && lines[i].quantity <= 0
    ensures ValidateRemaining(drugs, lines) == Failure(InvalidQuantity(lines[i].drugId, lines[i].quantity))
  {
    assert lines[..i + 1] == lines[..i] + [lines[i]];
    ValidateRemainingSnoc(drugs, lines[..i], lines[i]);
    ValidateRemainingFailurePersists(drugs, lines, i + 1);
  }

  /**
   * The property the corrected validation is for: whatever the request, and repeated drug
   * ids included, a validated sale never drives a stock below zero, and every stock it
   * touches goes down.
   */
  lemma {:induction false} ValidateRemainingKeepsStock(drugs: map<DrugId, Drug>, lines: seq<LineRequest>)
    requires forall k :: k in drugs ==> drugs[k].quantity >= 0
    requires ValidateRemaining(drugs, lines).Success?
    ensures forall k :: k in drugs ==> 0 <= Requested(lines, k) <= drugs[k].quantity
    ensures forall k :: k in AfterDecrement(drugs, lines) ==>
              0 <= AfterDecrement(drugs, lines)[k].quantity <= drugs[k].quantity
  {
    if lines != [] {
      var init := lines[..|lines| - 1];
      ValidateRemainingKeepsStock(drugs, init);
    }
  }

  /** Every line the corrected validation accepts would also pass the original check. */
  lemma {:induction false} ValidateRemainingRefines(drugs: map<DrugId, Drug>, lines: seq<LineRequest>)
    requires forall k :: k in drugs ==> drugs[k].quantity >= 0
    requires ValidateRemaining(drugs, lines).Success?
    ensures Validate(drugs, lines) == ValidateRemaining(drugs, lines)
  {
    if lines != [] {
      var init := lines[..|lines| - 1];
      ValidateRemainingRefines(drugs, init);
      ValidateRemainingKeepsStock(drugs, init);
    }
  }

  // ---------------------------------------------------------------------------
  // The handler's two loops, and the store
  // ---------------------------------------------------------------------------

  /**
   * The validation loop of POST /api/sales: it accumulates the line items and the running
   * total, and returns at the first line whose drug is missing or short of stock.
   */
  method ValidateLines(table: map<DrugId, Drug>, items: seq<LineRequest>) returns (r: Result<seq<SaleItem>, SaleError>, total: int)
    ensures r == Validate(table, items)
    ensures r.Success? ==> total == Total(r.value)
  {
    total := 0;
    var validated: seq<SaleItem> := [];
    var i := 0;
    while i < |items|
      invariant 0 <= i <= |items|
      invariant Validate(table, items[..i]) == Success(validated)
      invariant total == Total(validated)
    {
      var item := items[i];
      assert items[..i + 1][..i] == items[..i];
      if item.drugId !in table {
        ValidateFailurePersists(table, items, i + 1);
        return Failure(DrugNotFound(item.drugId)), total;
      }
      var drug := table[item.drugId];
      if drug.quantity < item.quantity {
        ValidateFailurePersists(table, items, i + 1);
        return Failure(InsufficientStock(drug.name, drug.quantity, item.quantity)), total;
      }
      var subtotal := drug.price * item.quantity;
      total := total + subtotal;
      validated := validated + [SaleItem(drug.id, drug.name, item.quantity, drug.price, subtotal)];
      i := i + 1;
    }
    assert items[..|items|] == items;
    r := Success(validated);
  }

  /** The decrement loop run inside the transaction: one `decrement` per requested line. */
  method DecrementStock(table: map<DrugId, Drug>, items: seq<LineRequest>) returns (stock: map<DrugId, Drug>)
    requires forall i :: 0 <= i < |items| ==> items[i].drugId in table
    ensures stock == AfterDecrement(table, items)
  {
    stock := table;
    var j := 0;
    while j < |items|
      invariant 0 <= j <= |items|
      invariant stock == AfterDecrement(table, items[..j])
    {
      var item := items[j];
      assert items[..j + 1] == items[..j] + [item];
      AfterDecrementStep(table, items[..j], item);
      stock := Decremented(stock, item);
      j := j + 1;
    }
    assert items[..|items|] == items;
  }

  /**
   * The corrected validation loop: it checks each line against a running copy of the stock,
   * which it decrements as it goes, and refuses non-positive quantities.
   */
  method ValidateLinesChecked(table: map<DrugId, Drug>, items: seq<LineRequest>)
    returns (r: Result<seq<SaleItem>, SaleError>, total: int, stock: map<DrugId, Drug>)
    ensures r == ValidateRemaining(table, items)
    ensures r.Success? ==> total == Total(r.value) && stock == AfterDecrement(table, items)
  {
    total := 0;
    var validated: seq<SaleItem> := [];
    stock := table;
    var i := 0;
    AfterDecrementNone(table);
    assert items[..0] == [];
    while i < |items|
      invariant 0 <= i <= |items|
      invariant ValidateRemaining(table, items[..i]) == Success(validated)
      invariant stock == AfterDecrement(table, items[..i])
      invariant total == Total(validated)
    {
      var item := items[i];
      var checked := CheckLineRemaining(table, stock, item);
      if checked.Failure? {
        CheckedFailure(table, items, i, validated, stock);
        return Failure(checked.error), total, stock;
      }
      CheckedSuccess(table, items, i, validated, stock);
      var line := checked.value;
      TotalSnoc(validated, line);
      total := total + line.subtotal;
      validated := validated + [line];
      stock := Decremented(stock, item);
      i := i + 1;
    }
    assert items[..|items|] == items;
    r := Success(validated);
  }

  /** A line that fails against the stock the earlier lines leave decides the corrected loop's result. */
  lemma CheckedFailure(table: map<DrugId, Drug>, items: seq<LineRequest>, i: nat, validated: seq<SaleItem>, stock: map<DrugId, Drug>)
    requires i < |items|
    requires ValidateRemaining(table, items[..i]) == Success(validated)
    requires stock == AfterDecrement(table, items[..i])
    requires CheckLineRemaining(table, stock, items[i]).Failure?
    ensures ValidateRemaining(table, items) == Failure(CheckLineRemaining(table, stock, items[i]).error)
  {
    assert items[..i + 1] == items[..i] + [items[i]];
    ValidateRemainingSnoc(table, items[..i], items[i]);
    ValidateRemainingFailurePersists(table, items, i + 1);
  }

  /** A line that passes extends the validated items and decrements its drug's stock. */
  lemma CheckedSuccess(table: map<DrugId, Drug>, items: seq<LineRequest>, i: nat, validated: seq<SaleItem>, stock: map<DrugId, Drug>)
    requires i < |items|
    requires ValidateRemaining(table, items[..i]) == Success(validated)
    requires stock == AfterDecrement(table, items[..i])
    requires CheckLineRemaining(table, stock, items[i]).Success?
    ensures items[i].drugId in stock
    ensures ValidateRemaining(table, items[..i + 1]) == Success(validated + [CheckLineRemaining(table, stock, items[i]).value])
    ensures AfterDecrement(table, items[..i + 1]) == Decremented(stock, items[i])
  {
    assert items[..i + 1] == items[..i] + [items[i]];
    ValidateRemainingSnoc(table, items[..i], items[i]);
    AfterDecrementStep(table, items[..i], items[i]);
  }

  /** The running total after one more item. */
  lemma TotalSnoc(items: seq<SaleItem>, item: SaleItem)
    ensures Total(items + [item]) == Total(items) + item.subtotal
  {
    assert (items + [item])[..|items|] == items;
  }

  /** Decrementing never adds or removes a drug, nor changes anything but its quantity. */
  lemma AfterDecrementKeyed(drugs: map<DrugId, Drug>, lines: seq<LineRequest>)
    requires KeyedById(drugs)
    ensures AfterDecrement(drugs, lines).Keys == drugs.Keys
    ensures KeyedById(AfterDecrement(drugs, lines))
  {
  }

  /** The Drug and Sale tables. Sale ids are positions in the sale log. */
  class Store {
    var drugs: map<DrugId, Drug>
    var sales: seq<Sale>

    ghost predicate Valid()
      reads this
    {
      && KeyedById(drugs)
      && forall i :: 0 <= i < |sales| ==> sales[i].id == i && WellFormedSale(sales[i])
    }

    constructor (stock: map<DrugId, Drug>)
      requires KeyedById(stock)
      ensures Valid() && drugs == stock && sales == []
    {
      drugs := stock;
      sales := [];
    }

    /** Commits a validated sale: the new Sale row and the decremented stock land together. */
    method Commit(sale: Sale, stock: map<DrugId, Drug>)
      requires Valid() && KeyedById(stock) && sale.id == |sales| && WellFormedSale(sale)
      modifies this
      ensures Valid() && drugs == stock && sales == old(sales) + [sale]
    {
      drugs := stock;
      sales := sales + [sale];
    }

    /**
     * POST /api/sales as written. On success the new sale is appended and every drug's
     * stock drops by the units requested of it; on any error neither table changes.
     */
    method CreateSale(body: Option<seq<LineRequest>>, now: int) returns (r: Result<Sale, SaleError>)
      requires Valid()
      modifies this
      ensures Valid()
      ensures r == Outcome(old(drugs), |old(sales)|, body, now)
      ensures r.Success? ==> drugs == AfterDecrement(old(drugs), body.value) && sales == old(sales) + [r.value]
      ensures r.Failure? ==> drugs == old(drugs) && sales == old(sales)
    {
      if body.None? || |body.value| == 0 {
        return Failure(ItemsRequired);
      }
      var items := body.value;
      var checked, total := ValidateLines(drugs, items);
      if checked.Failure? {
        return Failure(checked.error);
      }
      ValidateSucceeds(drugs, items);
      ValidatedSubtotals(drugs, items);
      var sale := Sale(|sales|, total, now, checked.value);
      var stock := DecrementStock(drugs, items);
      AfterDecrementKeyed(drugs, items);
      Commit(sale, stock);
      r := Success(sale);
    }

    /**
     * The corrected sale creation: lines are checked against the stock left by the lines
     * before them and must request a positive quantity. It keeps every stock non-negative.
     */
    method CreateSaleChecked(body: Option<seq<LineRequest>>, now: int) returns (r: Result<Sale, SaleError>)
      requires Valid()
      requires forall k :: k in drugs ==> drugs[k].quantity >= 0
      modifies this
      ensures Valid()
      ensures forall k :: k in drugs ==> drugs[k].quantity >= 0
      ensures r == OutcomeChecked(old(drugs), |old(sales)|, body, now)
      ensures r.Success? ==> drugs == AfterDecrement(old(drugs), body.value) && sales == old(sales) + [r.value]
      ensures r.Failure? ==> drugs == old(drugs) && sales == old(sales)
    {
      if body.None? || |body.value| == 0 {
        return Failure(ItemsRequired);
      }
      var items := body.value;
      var checked, total, stock := ValidateLinesChecked(drugs, items);
      if checked.Failure? {
        return Failure(checked.error);
      }
      ValidateRemainingKeepsStock(drugs, items);
      ValidateRemainingRefines(drugs, items);
      ValidatedSubtotals(drugs, items);
      AfterDecrementKeyed(drugs, items);
      var sale := Sale(|sales|, total, now, checked.value);
      Commit(sale, stock);
      r := Success(sale);
    }
  }

  // ---------------------------------------------------------------------------
  // Properties of the handler's outcome
  // ---------------------------------------------------------------------------

  /** The error path: missing or empty items, or the first failing line, and nothing else. */
  lemma OutcomeFailure(drugs: map<DrugId, Drug>, saleId: nat, body: Option<seq<LineRequest>>, now: int)
    ensures ItemsMissing(body) ==> Outcome(drugs, saleId, body, now) == Failure(ItemsRequired)
    ensures !ItemsMissing(body) && Outcome(drugs, saleId, body, now).Failure? ==>
              exists k :: 0 <= k < |body.value|
                          && (forall j :: 0 <= j < k ==> CheckLine(drugs, body.value[j]).Success?)
                          && CheckLine(drugs, body.value[k]) == Failure(Outcome(drugs, saleId, body, now).error)
  {
    if !ItemsMissing(body) && Outcome(drugs, saleId, body, now).Failure? {
      ValidateFirstFailure(drugs, body.value);
    }
  }

  /**
   * The status a refused POST answers with: 404 exactly for a drug id not in the table,
   * and 400 for missing items or a quantity above the stock.
   */
  lemma OutcomeStatus(drugs: map<DrugId, Drug>, saleId: nat, body: Option<seq<LineRequest>>, now: int)
    requires Outcome(drugs, saleId, body, now).Failure?
    ensures var e := Outcome(drugs, saleId, body, now).error;
            && (Status(e) == 404 <==> e.DrugNotFound?)
            && (Status(e) == 400 <==> e.ItemsRequired? || e.InsufficientStock?)
            && (e.DrugNotFound? ==> e.drugId !in drugs)
            && (e.InsufficientStock? ==> e.available < e.requested)
  {
    OutcomeFailure(drugs, saleId, body, now);
  }

  /**
   * A created sale has one line per requested line, in request order; each line snapshots
   * the drug's name and price, has `subtotal == price * quantity`, and the sale's total is
   * the sum of the subtotals.
   */
  lemma {:induction false} OutcomeSuccess(drugs: map<DrugId, Drug>, saleId: nat, body: Option<seq<LineRequest>>, now: int)
    requires KeyedById(drugs)
    requires Outcome(drugs, saleId, body, now).Success?
    ensures var sale := Outcome(drugs, saleId, body, now).value;
            && body.Some? && |sale.items| == |body.value| > 0
            && sale.id == saleId && sale.createdAt == now
            && WellFormedSale(sale)
            && forall i :: 0 <= i < |sale.items| ==>
                 var line := body.value[i];
                 && line.drugId in drugs
                 && drugs[line.drugId].quantity >= line.quantity
                 && sale.items[i] == SaleItem(line.drugId, drugs[line.drugId].name, line.quantity,
                                              drugs[line.drugId].price, drugs[line.drugId].price * line.quantity)
  {
    ValidateSucceeds(drugs, body.value);
  }

  /** The sale total is the sum of the subtotals however the item list is split. */
  lemma {:induction false} TotalAppend(a: seq<SaleItem>, b: seq<SaleItem>)
    ensures Total(a + b) == Total(a) + Total(b)
    decreases |b|
  {
    if b == [] {
      assert a + b == a;
    } else {
      TotalAppend(a, b[..|b| - 1]);
      assert (a + b)[..|a + b| - 1] == a + b[..|b| - 1];
    }
  }

  /**
   * Stock conservation: the units a successful request takes out of stock, summed over
   * drugs, are the units its sale records.
   */
  lemma {:induction false} RequestedMatchesItems(drugs: map<DrugId, Drug>, lines: seq<LineRequest>, id: DrugId)
    requires KeyedById(drugs)
    requires Validate(drugs, lines).Success?
    ensures Requested(lines, id) == UnitsOf(Validate(drugs, lines).value, id)
  {
    if lines != [] {
      RequestedMatchesItems(drugs, lines[..|lines| - 1], id);
      var items := Validate(drugs, lines).value;
      assert items[..|items| - 1] == Validate(drugs, lines[..|lines| - 1]).value;
    }
  }

  /** Units of drug `id` recorded in a list of line items. */
  function UnitsOf(items: seq<SaleItem>, id: DrugId): int
  {
    if items == [] then 0
    else
      var last := items[|items| - 1];
      UnitsOf(items[..|items| - 1], id) + (if last.drugId == id then last.quantity else 0)
  }
}
