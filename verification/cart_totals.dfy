/**
  `computeDerivedState`: the subtotal and the item count, recomputed from the
  item list on every render and never stored.
 */
module CartTotals {
  import opened JsValues
  import opened CartItems

  /** The derived part of the cart state. */
  datatype Derived = Derived(subtotalCents: int, itemCount: int)

  /** The price of `units` units of a line. */
  function PriceOf(item: CartItem, units: int): int {
    item.priceCents * units
  }

  /** What one line contributes to the subtotal: `priceCents * quantity`. */
  function LineTotal(item: CartItem): int {
    PriceOf(item, item.quantity)
  }

  /** Σ priceCents × quantity over the lines. */
  function Subtotal(items: seq<CartItem>): int
    decreases |items|
  {
    if |items| == 0 then 0 else LineTotal(items[0]) + Subtotal(items[1..])
  }

  /** Changing only the quantity of a line changes its total by the price of the difference. */
  lemma LineTotalDelta(a: CartItem, b: CartItem)
    requires SameButQuantity(a, b)
    ensures LineTotal(a) - LineTotal(b) == PriceOf(a, a.quantity - b.quantity)
  {
  }

  /** Σ quantity over the lines. */
  function ItemCount(items: seq<CartItem>): int
    decreases |items|
  {
    if |items| == 0 then 0 else items[0].quantity + ItemCount(items[1..])
  }

  /** Both sums split over a concatenation. */
  lemma {:induction false} TotalsConcat(a: seq<CartItem>, b: seq<CartItem>)
    ensures Subtotal(a + b) == Subtotal(a) + Subtotal(b)
    ensures ItemCount(a + b) == ItemCount(a) + ItemCount(b)
    decreases |a|
  {
    if |a| > 0 {
      assert (a + b)[1..] == a[1..] + b;
      TotalsConcat(a[1..], b);
    } else {
      assert a + b == b;
    }
  }

  /**
    The two `reduce` calls, left to right from 0; the result agrees with the
    sums over the whole list.
   */
  method ComputeDerivedState(items: seq<CartItem>) returns (d: Derived)
    ensures d.subtotalCents == Subtotal(items)
    ensures d.itemCount == ItemCount(items)
  {
    var subtotal := 0;
    var count := 0;
    var i := 0;
    while i < |items|
      invariant 0 <= i <= |items|
      invariant subtotal == Subtotal(items[..i])
      invariant count == ItemCount(items[..i])
    {
      TotalsConcat(items[..i], [items[i]]);
      assert items[..i + 1] == items[..i] + [items[i]];
      subtotal := subtotal + LineTotal(items[i]);
      count := count + items[i].quantity;
      i := i + 1;
    }
    assert items[..i] == items;
    d := Derived(subtotal, count);
  }

  lemma TotalsSingleton(x: CartItem)
    ensures Subtotal([x]) == LineTotal(x) && ItemCount([x]) == x.quantity
  {
    assert [x][1..] == [];
  }

  lemma SplitAround<T>(s: seq<T>, k: int)
    requires 0 <= k < |s|
    ensures s == s[..k] + [s[k]] + s[k + 1..]
  {
  }

  /** Replacing one line moves both sums by the difference that line makes. */
  lemma TotalsReplaceAt(items: seq<CartItem>, k: int, x: CartItem)
    requires 0 <= k < |items|
    ensures Subtotal(items[k := x]) == Subtotal(items) - LineTotal(items[k]) + LineTotal(x)
    ensures ItemCount(items[k := x]) == ItemCount(items) - items[k].quantity + x.quantity
  {
    var before, after := items[..k], items[k + 1..];
    var changed := items[k := x];
    SplitAround(items, k);
    SplitAround(changed, k);
    assert changed[..k] == before && changed[k + 1..] == after && changed[k] == x;
    TotalsConcat(before + [items[k]], after);
    TotalsConcat(before, [items[k]]);
    TotalsConcat(before + [x], after);
    TotalsConcat(before, [x]);
    TotalsSingleton(items[k]);
    TotalsSingleton(x);
  }

  /** With every line holding at least one unit, the count is at least the number of lines. */
  lemma {:induction false} ItemCountAtLeastLines(items: seq<CartItem>)
    requires QuantitiesPositive(items)
    ensures ItemCount(items) >= |items|
    ensures ItemCount(items) == 0 <==> |items| == 0
    decreases |items|
  {
    if |items| > 0 {
      assert QuantitiesPositive(items[1..]) by {
        forall i | 0 <= i < |items[1..]| ensures items[1..][i].quantity >= 1 {
          assert items[1..][i] == items[i + 1];
        }
      }
      ItemCountAtLeastLines(items[1..]);
    }
  }

  /** Non-negative prices and quantities give a non-negative subtotal. */
  lemma {:induction false} SubtotalNonNegative(items: seq<CartItem>)
    requires forall i :: 0 <= i < |items| ==> items[i].priceCents >= 0 && items[i].quantity >= 0
    ensures Subtotal(items) >= 0
    decreases |items|
  {
    if |items| > 0 {
      var tail := items[1..];
      assert forall i :: 0 <= i < |tail| ==> tail[i] == items[i + 1];
      SubtotalNonNegative(tail);
      assert LineTotal(items[0]) >= 0;
    }
  }

  /** The empty cart, and so a cleared one, totals nothing. */
  lemma ClearCartTotals()
    ensures Subtotal(ClearCart()) == 0 && ItemCount(ClearCart()) == 0
  {
  }

  /** Adding a new line adds its units and their price; merging adds the units the cap lets through. */
  lemma AddItemTotals(items: seq<CartItem>, input: ItemInput)
    ensures var r := AddItem(items, input);
      var k := FindIndex(items, EffectiveId(input));
      if k < 0 then
        && ItemCount(r) == ItemCount(items) + RequestedQty(input.quantity)
        && Subtotal(r) == Subtotal(items) + LineTotal(r[|items|])
        && r[|items|].priceCents == input.priceCents
      else
        var added := r[k].quantity - items[k].quantity;
        && ItemCount(r) == ItemCount(items) + added
        && Subtotal(r) == Subtotal(items) - LineTotal(items[k]) + LineTotal(r[k])
        && r[k].priceCents == items[k].priceCents
        && added <= RequestedQty(input.quantity)
  {
    var k := FindIndex(items, EffectiveId(input));
    var r := AddItem(items, input);
    if k < 0 {
      var line := NewItem(input, EffectiveId(input));
      TotalsConcat(items, [line]);
      TotalsSingleton(line);
    } else {
      var q := Cap(items[k].quantity + RequestedQty(input.quantity), items[k].maxQty);
      AddItemExisting(items, input, k);
      TotalsReplaceAt(items, k, items[k].(quantity := q));
    }
  }

  /** Dropping line k takes away exactly that line's units and price. */
  lemma TotalsDropAt(items: seq<CartItem>, k: int)
    requires 0 <= k < |items|
    ensures ItemCount(items[..k] + items[k + 1..]) == ItemCount(items) - items[k].quantity
    ensures Subtotal(items[..k] + items[k + 1..]) == Subtotal(items) - LineTotal(items[k])
  {
    var before, after := items[..k], items[k + 1..];
    SplitAround(items, k);
    TotalsConcat(before + [items[k]], after);
    TotalsConcat(before, [items[k]]);
    TotalsConcat(before, after);
    TotalsSingleton(items[k]);
  }

  /** With unique ids, removing line k's id takes away exactly that line's units and price. */
  lemma RemoveItemTotals(items: seq<CartItem>, k: int)
    requires UniqueIds(items) && 0 <= k < |items|
    ensures var r := RemoveItem(items, items[k].id);
      && ItemCount(r) == ItemCount(items) - items[k].quantity
      && Subtotal(r) == Subtotal(items) - LineTotal(items[k])
  {
    RemoveItemUniqueAt(items, k);
    TotalsDropAt(items, k);
  }

  /** Setting the quantity of line k moves the count by the change and the subtotal by price times the change. */
  lemma TotalsSetQuantity(items: seq<CartItem>, k: int, q: int, r: seq<CartItem>)
    requires 0 <= k < |items| && r == WithQuantity(items, k, q)
    ensures ItemCount(r) == ItemCount(items) - items[k].quantity + q
    ensures Subtotal(r) == Subtotal(items) + PriceOf(items[k], q - items[k].quantity)
  {
    var line := items[k].(quantity := q);
    TotalsReplaceAt(items, k, line);
    LineTotalDelta(line, items[k]);
  }

  /** With unique ids, a positive update of line k moves the totals by its (capped) change. */
  lemma UpdateQtyTotals(items: seq<CartItem>, k: int, qty: int)
    requires UniqueIds(items) && 0 <= k < |items| && qty > 0
    ensures ItemCount(UpdateQty(items, items[k].id, qty)) ==
      ItemCount(items) - items[k].quantity + Cap(qty, items[k].maxQty)
    ensures Subtotal(UpdateQty(items, items[k].id, qty)) ==
      Subtotal(items) - LineTotal(items[k]) + LineTotal(items[k].(quantity := Cap(qty, items[k].maxQty)))
  {
    UpdateQtyUniqueAt(items, k, qty);
    TotalsReplaceAt(items, k, items[k].(quantity := Cap(qty, items[k].maxQty)));
  }

  /** Adding "tee" at 1000 cents twice, two then one unit, leaves one line of three and a subtotal of 3000. */
  lemma TeeScenario()
    ensures var tee := ItemInput(None, "tee", "Tee", 1000, "EUR", "", None, None, None, 2, None);
      var r := AddItem(AddItem([], tee), tee.(quantity := 1));
      |r| == 1 && r[0].id == "tee" && r[0].quantity == 3 && Subtotal(r) == 3000 && ItemCount(r) == 3
  {
  }
}
