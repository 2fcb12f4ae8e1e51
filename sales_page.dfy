/**
 * The new-sale form of the sales page: a cart of (drug, quantity) lines that the clerk
 * adds, removes and edits, its running total, the checks made before the cart is sent
 * to POST /api/sales, and the list of drugs offered for selection.
 */
module SalesPage {
  import opened Wrappers
  import opened JsNumber
  import opened SalesRoute

  /** One row of the cart; `drugId` is "" until a drug is chosen. */
  datatype CartLine = CartLine(drugId: DrugId, quantity: int)

  /** The row `addItem` appends. */
  const BlankLine := CartLine("", 1)

  /** The drugs offered for selection: the fetched list without the out-of-stock ones. */
  function InStock(drugs: seq<Drug>): (r: seq<Drug>)
    ensures forall d :: d in r <==> d in drugs && d.quantity > 0
    ensures |r| <= |drugs|
  {
    if drugs == [] then []
    else
      var rest := InStock(drugs[..|drugs| - 1]);
      var d := drugs[|drugs| - 1];
      assert drugs == drugs[..|drugs| - 1] + [d];
      if d.quantity > 0 then rest + [d] else rest
  }

  /** The filter keeps the input order: it distributes over concatenation. */
  lemma {:induction false} InStockAppend(a: seq<Drug>, b: seq<Drug>)
    ensures InStock(a + b) == InStock(a) + InStock(b)
  {
    if b == [] {
      assert a + b == a;
    } else {
      var b' := b[..|b| - 1];
      assert (a + b)[..|a + b| - 1] == a + b';
      assert (a + b)[|a + b| - 1] == b[|b| - 1];
      InStockAppend(a, b');
    }
  }

  /** Filtering twice changes nothing. */
  lemma {:induction false} InStockIdempotent(drugs: seq<Drug>)
    ensures InStock(InStock(drugs)) == InStock(drugs)
  {
    if drugs != [] {
      var prefix := drugs[..|drugs| - 1];
      var d := drugs[|drugs| - 1];
      InStockIdempotent(prefix);
      if d.quantity > 0 {
        InStockAppend(InStock(prefix), [d]);
        assert InStock([d]) == [d] by { assert [d][..0] == []; }
      }
    }
  }

  /** `addItem`: one blank row is appended and the existing rows stay as they were. */
  function AddItem(cart: seq<CartLine>): (r: seq<CartLine>)
    ensures |r| == |cart| + 1 && r[..|cart|] == cart && r[|cart|] == BlankLine
  {
    cart + [BlankLine]
  }

  /** `removeItem(index)`: `filter((_, i) => i !== index)`, written as that filter over positions. */
  function RemoveItem(cart: seq<CartLine>, index: int): (r: seq<CartLine>)
    ensures 0 <= index < |cart| ==> r == cart[..index] + cart[index + 1..]
    ensures !(0 <= index < |cart|) ==> r == cart
  {
    if cart == [] then []
    else
      var prefix := cart[..|cart| - 1];
      var last := cart[|cart| - 1];
      var rest := RemoveItem(prefix, index);
      assert cart == prefix + [last];
      if |cart| - 1 == index then
        rest
      else
        assert 0 <= index < |prefix| ==> prefix[index + 1..] + [last] == cart[index + 1..];
        rest + [last]
  }

  /** Removing the row just added gives back the cart before it. */
  lemma RemoveAddedItem(cart: seq<CartLine>)
    ensures RemoveItem(AddItem(cart), |cart|) == cart
  {
    assert AddItem(cart)[..|cart|] == cart;
  }

  /** The edit `updateItem` applies: either field of one row. */
  datatype Edit = SetDrug(drugId: DrugId) | SetQuantity(text: string)

  /** `parseInt(value) || 1`: a parse that gives 0 or NaN falls back to 1. */
  function QuantityFrom(text: string): (q: int)
    ensures q != 0
    ensures ParseInt(text).Some? && ParseInt(text).value != 0 ==> q == ParseInt(text).value
    ensures (ParseInt(text).None? || ParseInt(text) == Some(0)) ==> q == 1
  {
    match ParseInt(text)
    case None => 1
    case Some(n) => if n == 0 then 1 else n
  }

  /** The typed quantity survives the edit, and so does a negative one ("-3" becomes -3). */
  lemma QuantityFromDecimal(n: nat)
    ensures n != 0 ==> QuantityFrom(Decimal(n)) == n
    ensures QuantityFrom(['-'] + Decimal(n)) == if n == 0 then 1 else -(n as int)
  {
    var t := Decimal(n);
    ParseIntDecimal(n, []);
    assert t + [] == t;
    assert ParseInt(t) == Some(n);
    var u := ['-'] + t;
    ParseIntNegativeDecimal(n, []);
    assert ['-'] + (t + []) == u;
    assert ParseInt(u) == Some(-(n as int));
  }

  /** An empty field and a typed 0 both give 1. */
  lemma QuantityFromBlank()
    ensures QuantityFrom("") == 1 && QuantityFrom(Decimal(0)) == 1
  {
    ParseIntNaN("");
    ParseIntDecimal(0, []);
    assert Decimal(0) + [] == Decimal(0);
  }

  function Apply(line: CartLine, edit: Edit): CartLine
  {
    match edit
    case SetDrug(id) => line.(drugId := id)
    case SetQuantity(text) => line.(quantity := QuantityFrom(text))
  }

  /**
   * `updateItem(index, field, value)`: the rows are copied into a fresh array, the one
   * row is changed in place, and the copy becomes the new cart.
   */
  method UpdateItem(cart: seq<CartLine>, index: nat, edit: Edit) returns (updated: seq<CartLine>)
    requires index < |cart|
    ensures |updated| == |cart|
    ensures forall i :: 0 <= i < |cart| && i != index ==> updated[i] == cart[i]
    ensures edit.SetDrug? ==> updated[index] == CartLine(edit.drugId, cart[index].quantity)
    ensures edit.SetQuantity? ==> updated[index] == CartLine(cart[index].drugId, QuantityFrom(edit.text))
    ensures edit.SetQuantity? ==> updated[index].quantity != 0
  {
    var a := new CartLine[|cart|](i requires 0 <= i < |cart| => cart[i]);
    a[index] := Apply(a[index], edit);
    updated := a[..];
  }

  /** `drugs.find((d) => d.id === id)`: the first drug with that id. */
  function Find(drugs: seq<Drug>, id: DrugId): (r: Option<Drug>)
    ensures r.None? <==> forall i :: 0 <= i < |drugs| ==> drugs[i].id != id
    ensures r.Some? ==> exists k :: && 0 <= k < |drugs| && drugs[k] == r.value && r.value.id == id
                                    && forall j :: 0 <= j < k ==> drugs[j].id != id
  {
    if drugs == [] then None
    else if drugs[0].id == id then Some(drugs[0])
    else
      var r := Find(drugs[1..], id);
      assert forall j :: 1 <= j < |drugs| ==> drugs[j] == drugs[1..][j - 1];
      if r.Some? then
        ghost var k :| && 0 <= k < |drugs[1..]| && drugs[1..][k] == r.value && r.value.id == id
                       && forall j :: 0 <= j < k ==> drugs[1..][j].id != id;
        assert drugs[k + 1] == r.value;
        assert forall j :: 0 <= j < k + 1 ==> drugs[j].id != id by {
          forall j | 0 <= j < k + 1 ensures drugs[j].id != id {
            if j > 0 { assert drugs[j] == drugs[1..][j - 1]; }
          }
        }
        r
      else
        r
  }

  /** What one row adds to the total: price × quantity, or 0 when its drug is not listed. */
  function LineAmount(drugs: seq<Drug>, line: CartLine): int
  {
    match Find(drugs, line.drugId)
    case None => 0
    case Some(d) => d.price * line.quantity
  }

  /** `calculateTotal`: the `reduce` over the cart, from the left. */
  function CalculateTotal(drugs: seq<Drug>, cart: seq<CartLine>): int
  {
    if cart == [] then 0
    else CalculateTotal(drugs, cart[..|cart| - 1]) + LineAmount(drugs, cart[|cart| - 1])
  }

  /** The total of two carts put together is the sum of their totals. */
  lemma {:induction false} TotalAppend(drugs: seq<Drug>, a: seq<CartLine>, b: seq<CartLine>)
    ensures CalculateTotal(drugs, a + b) == CalculateTotal(drugs, a) + CalculateTotal(drugs, b)
  {
    if b == [] {
      assert a + b == a;
    } else {
      var b' := b[..|b| - 1];
      assert (a + b)[..|a + b| - 1] == a + b';
      assert (a + b)[|a + b| - 1] == b[|b| - 1];
      TotalAppend(drugs, a, b');
    }
  }

  /** A row whose drug id is not in the list (the blank row, say) adds nothing wherever it sits. */
  lemma UnknownLineAddsNothing(drugs: seq<Drug>, a: seq<CartLine>, line: CartLine, b: seq<CartLine>)
    requires Find(drugs, line.drugId).None?
    ensures CalculateTotal(drugs, a + [line] + b) == CalculateTotal(drugs, a + b)
  {
    TotalAppend(drugs, a + [line], b);
    TotalAppend(drugs, a, [line]);
    TotalAppend(drugs, a, b);
    assert [line][..0] == [];
  }

  /** Adding a blank row leaves the total as it was, since no listed drug has the empty id. */
  lemma AddItemKeepsTotal(drugs: seq<Drug>, cart: seq<CartLine>)
    requires Find(drugs, "").None?
    ensures CalculateTotal(drugs, AddItem(cart)) == CalculateTotal(drugs, cart)
  {
    assert AddItem(cart)[..|cart|] == cart;
  }

  /** The reasons `handleSubmitSale` stops before sending anything. */
  datatype SubmitError =
    | NoItems
    | DrugNotSelected
    | NonPositiveQuantity
    | NotEnoughStock(drugName: string, available: int)

  /** The three checks on one row, in order. A drug missing from the list is not checked for stock. */
  function CheckRow(drugs: seq<Drug>, line: CartLine): Option<SubmitError>
  {
    if line.drugId == "" then Some(DrugNotSelected)
    else if line.quantity <= 0 then Some(NonPositiveQuantity)
    else
      match Find(drugs, line.drugId)
      case Some(d) => if line.quantity > d.quantity then Some(NotEnoughStock(d.name, d.quantity)) else None
      case None => None
  }

  /** The first row that fails its checks, scanning from the top. */
  function FirstProblem(drugs: seq<Drug>, cart: seq<CartLine>): Option<SubmitError>
  {
    if cart == [] then None
    else
      var earlier := FirstProblem(drugs, cart[..|cart| - 1]);
      if earlier.Some? then earlier else CheckRow(drugs, cart[|cart| - 1])
  }

  /** The verdict of the submit checks: an empty cart first, then the rows in order. */
  function SubmitCheck(drugs: seq<Drug>, cart: seq<CartLine>): Option<SubmitError>
  {
    if cart == [] then Some(NoItems) else FirstProblem(drugs, cart)
  }

  lemma {:induction false} FirstProblemPrefix(drugs: seq<Drug>, cart: seq<CartLine>, n: nat)
    requires n <= |cart|
    ensures FirstProblem(drugs, cart[..n]).Some? ==> FirstProblem(drugs, cart) == FirstProblem(drugs, cart[..n])
  {
    if n < |cart| {
      assert cart[..|cart| - 1][..n] == cart[..n];
      FirstProblemPrefix(drugs, cart[..|cart| - 1], n);
    } else {
      assert cart[..n] == cart;
    }
  }

  /** The submit is sent exactly when the cart is not empty and every row passes all three checks. */
  lemma {:induction false} SubmitPasses(drugs: seq<Drug>, cart: seq<CartLine>)
    ensures SubmitCheck(drugs, cart).None? <==>
              cart != [] && forall i :: 0 <= i < |cart| ==> CheckRow(drugs, cart[i]).None?
  {
    if cart != [] {
      FirstProblemNone(drugs, cart);
    }
  }

  lemma {:induction false} FirstProblemNone(drugs: seq<Drug>, cart: seq<CartLine>)
    ensures FirstProblem(drugs, cart).None? <==> forall i :: 0 <= i < |cart| ==> CheckRow(drugs, cart[i]).None?
  {
    if cart != [] {
      var prefix := cart[..|cart| - 1];
      FirstProblemNone(drugs, prefix);
      assert forall i :: 0 <= i < |prefix| ==> prefix[i] == cart[i];
    }
  }

  /** A passing cart has a chosen drug, a positive quantity and enough listed stock on every row. */
  lemma PassingCartRows(drugs: seq<Drug>, cart: seq<CartLine>, i: nat)
    requires SubmitCheck(drugs, cart).None? && i < |cart|
    ensures cart[i].drugId != "" && cart[i].quantity > 0
    ensures Find(drugs, cart[i].drugId).Some? ==> cart[i].quantity <= Find(drugs, cart[i].drugId).value.quantity
  {
    SubmitPasses(drugs, cart);
    assert CheckRow(drugs, cart[i]).None?;
  }

  /** A freshly added blank row always blocks the submit until a drug is chosen for it. */
  lemma {:induction false} AddItemBlocksSubmit(drugs: seq<Drug>, cart: seq<CartLine>)
    ensures SubmitCheck(drugs, AddItem(cart)).Some?
  {
    assert AddItem(cart)[..|cart|] == cart;
  }

  /**
   * The checks compare each row with the listed stock on its own, so two rows of one drug
   * pass even when together they ask for more than there is.
   */
  lemma RepeatedDrugPassesSubmit()
    ensures var drugs := [Drug("a", "Aspirin", 100, 1)];
            SubmitCheck(drugs, [CartLine("a", 1), CartLine("a", 1)]).None?
  {
    var drugs := [Drug("a", "Aspirin", 100, 1)];
    var cart := [CartLine("a", 1), CartLine("a", 1)];
    assert cart[..1][..0] == [];
    assert cart[..1] == [CartLine("a", 1)];
    assert Find(drugs, "a") == Some(drugs[0]);
    assert CheckRow(drugs, CartLine("a", 1)).None?;
    assert FirstProblem(drugs, cart[..1]).None?;
  }

  /**
   * `handleSubmitSale`'s validation: the `for … of` loop over the cart that returns at the
   * first failing check.
   */
  method ValidateCart(drugs: seq<Drug>, cart: seq<CartLine>) returns (error: Option<SubmitError>)
    ensures error == SubmitCheck(drugs, cart)
  {
    if |cart| == 0 {
      return Some(NoItems);
    }
    var i := 0;
    while i < |cart|
      invariant 0 <= i <= |cart|
      invariant FirstProblem(drugs, cart[..i]).None?
    {
      var item := cart[i];
      assert cart[..i + 1][..i] == cart[..i];
      if item.drugId == "" {
        FirstProblemPrefix(drugs, cart, i + 1);
        return Some(DrugNotSelected);
      }
      if item.quantity <= 0 {
        FirstProblemPrefix(drugs, cart, i + 1);
        return Some(NonPositiveQuantity);
      }
      var drug := Find(drugs, item.drugId);
      if drug.Some? && item.quantity > drug.value.quantity {
        FirstProblemPrefix(drugs, cart, i + 1);
        return Some(NotEnoughStock(drug.value.name, drug.value.quantity));
      }
      i := i + 1;
    }
    assert cart[..i] == cart;
    error := None;
  }
}
