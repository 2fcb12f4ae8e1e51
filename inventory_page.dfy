/**
 * The inventory page: the search and category filter over the drug list, the category
 * choices, the stock and expiry badges of each row, and the numeric checks the drug form
 * makes before saving.
 */
module InventoryPage {
  import opened Wrappers
  import opened JsNumber
  import opened TimeUnits

  /** A drug as the inventory list receives it; the expiry date is in epoch milliseconds. */
  datatype InventoryDrug = InventoryDrug(
    id: string,
    name: string,
    category: Option<string>,
    price: int,
    quantity: int,
    expiryDate: Option<int>,
    description: Option<string>)

  /** `toLowerCase` on one character, for the ASCII letters. */
  function LowerChar(c: char): char
  {
    if 'A' <= c <= 'Z' then (c as int + 32) as char else c
  }

  function Lower(s: string): (r: string)
    ensures |r| == |s| && forall i :: 0 <= i < |s| ==> r[i] == LowerChar(s[i])
  {
    if s == [] then [] else [LowerChar(s[0])] + Lower(s[1..])
  }

  /** `pattern` occurs in `text` starting at position `i`. */
  predicate OccursAt(text: string, pattern: string, i: nat)
  {
    i + |pattern| <= |text| && text[i..i + |pattern|] == pattern
  }

  /** `text.includes(pattern)`: a prefix of `text` or of one of its suffixes. */
  function Contains(text: string, pattern: string): (b: bool)
    ensures b <==> exists i: nat :: OccursAt(text, pattern, i)
  {
    if pattern <= text then
      assert OccursAt(text, pattern, 0);
      true
    else if text == [] then
      assert forall i: nat :: !OccursAt(text, pattern, i);
      false
    else
      var b := Contains(text[1..], pattern);
      assert forall i: nat :: OccursAt(text, pattern, i + 1) <==> OccursAt(text[1..], pattern, i) by {
        forall i: nat ensures OccursAt(text, pattern, i + 1) <==> OccursAt(text[1..], pattern, i) {
          if i + 1 + |pattern| <= |text| {
            assert text[i + 1..i + 1 + |pattern|] == text[1..][i..i + |pattern|];
          }
        }
      }
      assert !OccursAt(text, pattern, 0);
      assert b ==> exists i: nat :: OccursAt(text, pattern, i) by {
        if b {
          var i: nat :| OccursAt(text[1..], pattern, i);
          assert OccursAt(text, pattern, i + 1);
        }
      }
      assert (exists i: nat :: OccursAt(text, pattern, i)) ==> b by {
        if exists i: nat :: OccursAt(text, pattern, i) {
          var i: nat :| OccursAt(text, pattern, i);
          assert i != 0;
          assert OccursAt(text[1..], pattern, i - 1);
        }
      }
      b
  }

  /** The empty search matches every name. */
  lemma EmptySearchMatches(text: string)
    ensures Contains(text, "")
  {
  }

  /** One drug's row is shown: the lower-cased name contains the lower-cased term and the category matches when one is chosen. */
  predicate Matches(d: InventoryDrug, searchTerm: string, categoryFilter: string)
  {
    && Contains(Lower(d.name), Lower(searchTerm))
    && (categoryFilter == "" || d.category == Some(categoryFilter))
  }

  /** `filteredDrugs`: the drugs whose row is shown, in list order. */
  function FilteredDrugs(drugs: seq<InventoryDrug>, searchTerm: string, categoryFilter: string): (r: seq<InventoryDrug>)
    ensures |r| <= |drugs|
  {
    if drugs == [] then []
    else
      var prefix := drugs[..|drugs| - 1];
      var d := drugs[|drugs| - 1];
      FilteredDrugs(prefix, searchTerm, categoryFilter) + (if Matches(d, searchTerm, categoryFilter) then [d] else [])
  }

  /** A drug is listed exactly when it is in the list and its row matches. */
  lemma {:induction false} FilteredMembers(drugs: seq<InventoryDrug>, searchTerm: string, categoryFilter: string)
    ensures forall d :: d in FilteredDrugs(drugs, searchTerm, categoryFilter) <==> d in drugs && Matches(d, searchTerm, categoryFilter)
  {
    if drugs != [] {
      var prefix := drugs[..|drugs| - 1];
      FilteredMembers(prefix, searchTerm, categoryFilter);
      assert drugs == prefix + [drugs[|drugs| - 1]];
    }
  }

  /** The filter keeps the list's order: it distributes over concatenation. */
  lemma {:induction false} FilteredAppend(a: seq<InventoryDrug>, b: seq<InventoryDrug>, searchTerm: string, categoryFilter: string)
    ensures FilteredDrugs(a + b, searchTerm, categoryFilter)
         == FilteredDrugs(a, searchTerm, categoryFilter) + FilteredDrugs(b, searchTerm, categoryFilter)
  {
    if b == [] {
      assert a + b == a;
    } else {
      var b' := b[..|b| - 1];
      assert (a + b)[..|a + b| - 1] == a + b';
      assert (a + b)[|a + b| - 1] == b[|b| - 1];
      FilteredAppend(a, b', searchTerm, categoryFilter);
    }
  }

  /** With no search term and no category chosen, every row matches. */
  lemma MatchesWhenFilterOff(d: InventoryDrug)
    ensures Matches(d, "", "")
  {
    assert Lower("") == "";
    EmptySearchMatches(Lower(d.name));
  }

  /** With no search term and no category chosen, every drug is listed, in order. */
  lemma {:induction false} FilterOffShowsAll(drugs: seq<InventoryDrug>)
    ensures FilteredDrugs(drugs, "", "") == drugs
  {
    if drugs != [] {
      var prefix := drugs[..|drugs| - 1];
      var d := drugs[|drugs| - 1];
      FilterOffShowsAll(prefix);
      MatchesWhenFilterOff(d);
      assert drugs == prefix + [d];
    }
  }

  /** The category a drug contributes to the choices: `filter(Boolean)` drops null and "". */
  predicate HasCategory(d: InventoryDrug)
  {
    d.category.Some? && d.category.value != ""
  }

  /** `Array.from(new Set(drugs.map((d) => d.category).filter(Boolean)))`. */
  function Categories(drugs: seq<InventoryDrug>): (r: seq<string>)
    ensures forall c :: c in r <==> exists i :: 0 <= i < |drugs| && HasCategory(drugs[i]) && drugs[i].category.value == c
  {
    if drugs == [] then []
    else
      var prefix := drugs[..|drugs| - 1];
      var d := drugs[|drugs| - 1];
      var rest := Categories(prefix);
      assert forall i :: 0 <= i < |prefix| ==> prefix[i] == drugs[i];
      if HasCategory(d) && d.category.value !in rest then rest + [d.category.value] else rest
  }

  /** No entry repeats and none is empty. */
  predicate DistinctNonEmpty(r: seq<string>)
  {
    && (forall i, j :: 0 <= i < j < |r| ==> r[i] != r[j])
    && (forall i :: 0 <= i < |r| ==> r[i] != "")
  }

  /** The choices are distinct and none is empty. */
  lemma {:induction false} CategoriesDistinct(drugs: seq<InventoryDrug>)
    ensures DistinctNonEmpty(Categories(drugs))
  {
    if drugs != [] {
      var prefix := drugs[..|drugs| - 1];
      var d := drugs[|drugs| - 1];
      var rest := Categories(prefix);
      CategoriesDistinct(prefix);
      if HasCategory(d) && d.category.value !in rest {
        var r := rest + [d.category.value];
        assert forall i :: 0 <= i < |rest| ==> r[i] == rest[i] && r[i] != r[|rest|];
        assert DistinctNonEmpty(r);
      }
    }
  }

  /** The position of the first drug carrying category `c`. */
  predicate FirstCarrier(drugs: seq<InventoryDrug>, c: string, k: nat)
  {
    && k < |drugs| && drugs[k].category == Some(c)
    && forall m :: 0 <= m < k ==> drugs[m].category != Some(c)
  }

  /** The choices come in order of first appearance in the list. */
  lemma {:induction false} CategoriesFirstAppearance(drugs: seq<InventoryDrug>, i: nat, j: nat)
    requires i < j < |Categories(drugs)|
    ensures exists ki, kj :: FirstCarrier(drugs, Categories(drugs)[i], ki) && FirstCarrier(drugs, Categories(drugs)[j], kj) && ki < kj
  {
    var prefix := drugs[..|drugs| - 1];
    var d := drugs[|drugs| - 1];
    var r := Categories(drugs);
    var rest := Categories(prefix);
    assert forall m :: 0 <= m < |prefix| ==> prefix[m] == drugs[m];
    if j < |rest| {
      assert r[..|rest|] == rest;
      CategoriesFirstAppearance(prefix, i, j);
      var ki, kj :| FirstCarrier(prefix, rest[i], ki) && FirstCarrier(prefix, rest[j], kj) && ki < kj;
      assert FirstCarrier(drugs, r[i], ki) && FirstCarrier(drugs, r[j], kj);
    } else {
      assert r == rest + [d.category.value] && r[j] == d.category.value;
      assert r[i] == rest[i];
      assert r[i] in rest;
      var ki := FirstIndexOf(prefix, r[i]);
      assert HasCategory(d) && r[j] !in rest;
      assert forall m :: 0 <= m < |prefix| ==> prefix[m].category != Some(r[j]);
      assert FirstCarrier(drugs, r[i], ki);
      assert FirstCarrier(drugs, r[j], |prefix|);
    }
  }

  /** The first carrier of a category that is among the choices. */
  lemma {:induction false} FirstIndexOf(drugs: seq<InventoryDrug>, c: string) returns (k: nat)
    requires c in Categories(drugs)
    ensures FirstCarrier(drugs, c, k)
  {
    var prefix := drugs[..|drugs| - 1];
    var d := drugs[|drugs| - 1];
    assert forall m :: 0 <= m < |prefix| ==> prefix[m] == drugs[m];
    if c in Categories(prefix) {
      k := FirstIndexOf(prefix, c);
    } else {
      k := |prefix|;
      assert c != "";
      assert forall m :: 0 <= m < |prefix| ==> prefix[m].category != Some(c);
    }
  }

  /** The "Out of Stock" badge. */
  predicate OutOfStock(quantity: int)
  {
    quantity == 0
  }

  /** The "Low Stock" badge. */
  predicate LowStock(quantity: int)
  {
    0 < quantity <= 10
  }

  /** Which stock badge a row shows: at most one, and none above 10 or below 0. */
  lemma StockBadges(quantity: int)
    ensures !(OutOfStock(quantity) && LowStock(quantity))
    ensures quantity > 10 || quantity < 0 ==> !OutOfStock(quantity) && !LowStock(quantity)
    ensures 1 <= quantity <= 10 ==> LowStock(quantity)
    ensures quantity == 0 <==> OutOfStock(quantity)
  {
  }

  /** `isExpired`: no date means not expired; otherwise the date is before now. */
  predicate IsExpired(expiryDate: Option<int>, now: int)
  {
    expiryDate.Some? && expiryDate.value < now
  }

  /** `isExpiringSoon`: the date lies between now and thirty days from now, both included. */
  predicate IsExpiringSoon(expiryDate: Option<int>, now: int)
  {
    expiryDate.Some? && now <= expiryDate.value <= now + 30 * DayMs
  }

  /**
   * The two badges of a row. Each predicate reads the clock separately, so the
   * "Expiring Soon" badge is guarded by `!isExpired` and may see a later instant.
   */
  predicate ShowsExpired(expiryDate: Option<int>, now: int)
  {
    IsExpired(expiryDate, now)
  }

  predicate ShowsExpiringSoon(expiryDate: Option<int>, nowExpired: int, nowSoon: int)
  {
    !IsExpired(expiryDate, nowExpired) && IsExpiringSoon(expiryDate, nowSoon)
  }

  /** At most one expiry badge shows, whatever the two clock readings; none without a date. */
  lemma ExpiryBadges(expiryDate: Option<int>, nowExpired: int, nowSoon: int)
    ensures !(ShowsExpired(expiryDate, nowExpired) && ShowsExpiringSoon(expiryDate, nowExpired, nowSoon))
    ensures expiryDate.None? ==> !ShowsExpired(expiryDate, nowExpired) && !ShowsExpiringSoon(expiryDate, nowExpired, nowSoon)
  {
  }

  /** Read at one instant, the two predicates already exclude each other, and their union is `expiry <= now + 30 days`. */
  lemma ExpiryClasses(expiry: int, now: int)
    ensures !(IsExpired(Some(expiry), now) && IsExpiringSoon(Some(expiry), now))
    ensures IsExpired(Some(expiry), now) || IsExpiringSoon(Some(expiry), now) <==> expiry <= now + 30 * DayMs
  {
  }

  datatype FormError = InvalidPrice | InvalidQuantity

  /**
   * The numeric checks of the drug form, price first: `price` is the `parseFloat` result in
   * minor units (`None` for NaN) and the quantity is `parseInt(quantity, 10)`.
   */
  function CheckDrugForm(price: Option<int>, quantityText: string): (r: Result<(int, int), FormError>)
    ensures r.Success? <==> && price.Some? && price.value >= 0
                            && ParseInt(quantityText).Some? && ParseInt(quantityText).value >= 0
    ensures r.Success? ==> r.value == (price.value, ParseInt(quantityText).value)
    ensures (price.None? || price.value < 0) ==> r == Failure(InvalidPrice)
    ensures r == Failure(InvalidQuantity) <==> && price.Some? && price.value >= 0
                                                && (ParseInt(quantityText).None? || ParseInt(quantityText).value < 0)
  {
    if price.None? || price.value < 0 then Failure(InvalidPrice)
    else
      match ParseInt(quantityText)
      case None => Failure(InvalidQuantity)
      case Some(q) => if q < 0 then Failure(InvalidQuantity) else Success((price.value, q))
  }

  /** A typed whole number is accepted as is, a negative one or an empty field is refused. */
  lemma FormQuantities(price: nat, n: nat)
    ensures n > 0 ==> CheckDrugForm(Some(price), ['-'] + Decimal(n)) == Failure(InvalidQuantity)
    ensures CheckDrugForm(Some(price), Decimal(n)) == Success((price, n))
    ensures CheckDrugForm(Some(price), "") == Failure(InvalidQuantity)
  {
    ParseIntDecimal(n, []);
    ParseIntNegativeDecimal(n, []);
    assert Decimal(n) + [] == Decimal(n);
    assert ['-'] + (Decimal(n) + []) == ['-'] + Decimal(n);
  }
}
