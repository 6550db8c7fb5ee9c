/**
  The cart's line-item store: the pure transitions behind `addItem`,
  `removeItem`, `updateQty` and `clearCart` over the ordered item list.
 */
module CartItems {
  import opened JsValues
  import ItemId

  /** One line of the cart. Quantities and prices are unbounded integers (cents). */
  datatype CartItem = CartItem(
    id: string,
    slug: string,
    title: string,
    priceCents: int,
    currency: string,
    image: string,
    variant: Option<string>,
    size: Option<string>,
    color: Option<string>,
    quantity: int,
    maxQty: Option<int>)

  /** The argument of `addItem`: every field of a line except that the id is optional. */
  datatype ItemInput = ItemInput(
    id: Option<string>,
    slug: string,
    title: string,
    priceCents: int,
    currency: string,
    image: string,
    variant: Option<string>,
    size: Option<string>,
    color: Option<string>,
    quantity: int,
    maxQty: Option<int>)

  /** A line carries the descriptive fields of an input unchanged (the `...input` spread). */
  predicate CarriesInput(item: CartItem, input: ItemInput) {
    && item.slug == input.slug
    && item.title == input.title
    && item.priceCents == input.priceCents
    && item.currency == input.currency
    && item.image == input.image
    && item.variant == input.variant
    && item.size == input.size
    && item.color == input.color
    && item.maxQty == input.maxQty
  }

  /** Two lines agree on everything but their quantity. */
  predicate SameButQuantity(a: CartItem, b: CartItem) {
    a == b.(quantity := a.quantity)
  }

  /** `input.quantity || 1`: zero asks for one, any other value (negative ones too) is taken as is. */
  function RequestedQty(quantity: int): (q: int)
    ensures q != 0
    ensures quantity >= 0 ==> q >= 1
    ensures quantity == 0 ==> q == 1
    ensures quantity != 0 ==> q == quantity
  {
    NumOr(quantity, 1)
  }

  /** `maxQty ? Math.min(q, maxQty) : q`: the cap applies only when it is truthy. */
  function Cap(q: int, maxQty: Option<int>): (r: int)
    ensures r <= q
    ensures TruthyNum(maxQty) ==> r <= maxQty.value && (r == q || r == maxQty.value)
    ensures !TruthyNum(maxQty) ==> r == q
  {
    if TruthyNum(maxQty) then (if q <= maxQty.value then q else maxQty.value) else q
  }

  /** `input.id || generateItemId(input)`: a non-empty explicit id wins, otherwise a key starting with the slug. */
  function EffectiveId(input: ItemInput): (id: string)
    ensures TruthyStr(input.id) ==> id == input.id.value
    ensures !TruthyStr(input.id) ==> |id| >= |input.slug| && id[..|input.slug|] == input.slug
  {
    if TruthyStr(input.id) then input.id.value
    else ItemId.GenerateItemId(input.slug, input.variant, input.size, input.color)
  }

  /** Some line of the list has this id. */
  predicate HasId(items: seq<CartItem>, id: string) {
    exists i :: 0 <= i < |items| && items[i].id == id
  }

  /** `k` is the first position holding this id. */
  predicate FirstWithId(items: seq<CartItem>, id: string, k: int) {
    && 0 <= k < |items|
    && items[k].id == id
    && forall j :: 0 <= j < k ==> items[j].id != id
  }

  /** No two lines share an id. */
  predicate UniqueIds(items: seq<CartItem>) {
    forall i, j :: 0 <= i < j < |items| ==> items[i].id != items[j].id
  }

  /** `items.findIndex(item => item.id === id)`: the first position with the id, or -1. */
  function FindIndex(items: seq<CartItem>, id: string): (k: int)
    ensures -1 <= k < |items|
    ensures k >= 0 ==> FirstWithId(items, id, k)
    ensures k < 0 <==> !HasId(items, id)
    decreases |items|
  {
    if |items| == 0 then -1
    else if items[0].id == id then 0
    else
      var k := FindIndex(items[1..], id);
      if k < 0 then -1 else k + 1
  }

  /** The line appended by `addItem` when its id is new: the input, its id, and the requested quantity (not capped). */
  function NewItem(input: ItemInput, id: string): (item: CartItem)
    ensures CarriesInput(item, input) && item.id == id
    ensures item.quantity == RequestedQty(input.quantity)
  {
    CartItem(id, input.slug, input.title, input.priceCents, input.currency, input.image,
             input.variant, input.size, input.color, RequestedQty(input.quantity), input.maxQty)
  }

  /** The list with line k's quantity set to q and nothing else changed. */
  function WithQuantity(items: seq<CartItem>, k: int, q: int): (r: seq<CartItem>)
    requires 0 <= k < |items|
    ensures |r| == |items|
    ensures r[k] == items[k].(quantity := q)
    ensures forall j :: 0 <= j < |items| && j != k ==> r[j] == items[j]
  {
    items[k := items[k].(quantity := q)]
  }

  /** Setting a line's quantity twice is setting it to the second value. */
  lemma WithQuantityTwice(items: seq<CartItem>, k: int, a: int, b: int)
    requires 0 <= k < |items|
    ensures WithQuantity(WithQuantity(items, k, a), k, b) == WithQuantity(items, k, b)
  {
  }

  /** `addItem`: merge into the first line with the same id, or append a new line. */
  function AddItem(items: seq<CartItem>, input: ItemInput): (r: seq<CartItem>)
    ensures |items| <= |r| <= |items| + 1
  {
    var id := EffectiveId(input);
    var k := FindIndex(items, id);
    if k >= 0 then
      var existing := items[k];
      WithQuantity(items, k, Cap(existing.quantity + RequestedQty(input.quantity), existing.maxQty))
    else
      assert (items + [NewItem(input, id)])[|items|].id == id;
      items + [NewItem(input, id)]
  }

  /** `removeItem`: `items.filter(item => item.id !== id)`. */
  function RemoveItem(items: seq<CartItem>, id: string): (r: seq<CartItem>)
    ensures |r| <= |items|
    ensures forall x :: x in r <==> x in items && x.id != id
    decreases |items|
  {
    if |items| == 0 then []
    else
      var rest := RemoveItem(items[1..], id);
      assert forall x :: x in items <==> x == items[0] || x in items[1..];
      if items[0].id == id then rest else [items[0]] + rest
  }

  /** The positive branch of `updateQty`: every line with the id gets `qty`, capped by its own `maxQty`. */
  function SetQty(items: seq<CartItem>, id: string, qty: int): (r: seq<CartItem>)
    ensures |r| == |items|
    ensures forall i :: 0 <= i < |items| ==> r[i].id == items[i].id && SameButQuantity(r[i], items[i])
    ensures forall i :: 0 <= i < |items| && items[i].id != id ==> r[i] == items[i]
    ensures forall i :: 0 <= i < |items| && items[i].id == id ==> r[i].quantity == Cap(qty, items[i].maxQty)
    decreases |items|
  {
    if |items| == 0 then []
    else
      var head := if items[0].id == id then items[0].(quantity := Cap(qty, items[0].maxQty)) else items[0];
      var rest := SetQty(items[1..], id, qty);
      assert forall i :: 1 <= i < |items| ==> ([head] + rest)[i] == rest[i - 1] && items[i] == items[1..][i - 1];
      [head] + rest
  }

  /** `updateQty`: a non-positive quantity removes the lines with the id; a positive one sets them. */
  function UpdateQty(items: seq<CartItem>, id: string, qty: int): (r: seq<CartItem>)
    ensures qty <= 0 ==> forall x :: x in r <==> x in items && x.id != id
    ensures qty > 0 ==> |r| == |items|
    ensures qty > 0 ==> forall i :: 0 <= i < |items| ==> r[i].id == items[i].id
  {
    if qty <= 0 then RemoveItem(items, id) else SetQty(items, id, qty)
  }

  /** `clearCart`. */
  function ClearCart(): (r: seq<CartItem>)
    ensures |r| == 0
  {
    []
  }

  // ---------------------------------------------------------------------------
  // addItem
  // ---------------------------------------------------------------------------

  /** Merging into an existing id touches only the first line with it, and caps only there. */
  lemma AddItemExisting(items: seq<CartItem>, input: ItemInput, k: int)
    requires FirstWithId(items, EffectiveId(input), k)
    ensures AddItem(items, input) ==
      WithQuantity(items, k, Cap(items[k].quantity + RequestedQty(input.quantity), items[k].maxQty))
    ensures var r := AddItem(items, input);
      && |r| == |items|
      && SameButQuantity(r[k], items[k])
      && (forall j :: 0 <= j < |items| && j != k ==> r[j] == items[j])
  {
    assert FindIndex(items, EffectiveId(input)) == k;
  }

  /** With a new id, exactly one line is appended after the untouched old ones. */
  lemma AddItemAbsent(items: seq<CartItem>, input: ItemInput)
    requires !HasId(items, EffectiveId(input))
    ensures var r := AddItem(items, input);
      && |r| == |items| + 1
      && r[..|items|] == items
      && r[|items|].id == EffectiveId(input)
      && r[|items|].quantity == RequestedQty(input.quantity)
      && CarriesInput(r[|items|], input)
  {
  }

  /** After adding, the cart holds the id; it grew by one line exactly when the id was new. */
  lemma AddItemHasId(items: seq<CartItem>, input: ItemInput)
    ensures var r := AddItem(items, input);
      && HasId(r, EffectiveId(input))
      && |r| == if HasId(items, EffectiveId(input)) then |items| else |items| + 1
  {
    var id := EffectiveId(input);
    var k := FindIndex(items, id);
    var r := AddItem(items, input);
    if k >= 0 {
      assert r[k].id == id;
    } else {
      assert r[|items|].id == id;
    }
  }

  /**
    An explicit non-empty id is the key `addItem` merges on; otherwise the
    generated key is: the cart keeps its length exactly when that key was
    already there, and holds it afterwards.
   */
  lemma AddItemIdChoice(items: seq<CartItem>, input: ItemInput)
    ensures TruthyStr(input.id) ==>
      var key := input.id.value;
      && HasId(AddItem(items, input), key)
      && (|AddItem(items, input)| == |items| <==> HasId(items, key))
    ensures !TruthyStr(input.id) ==>
      var key := ItemId.GenerateItemId(input.slug, input.variant, input.size, input.color);
      && HasId(AddItem(items, input), key)
      && (|AddItem(items, input)| == |items| <==> HasId(items, key))
  {
    AddItemHasId(items, input);
  }

  /** Adding never creates a duplicate id. */
  lemma AddItemKeepsIdsUnique(items: seq<CartItem>, input: ItemInput)
    requires UniqueIds(items)
    ensures UniqueIds(AddItem(items, input))
  {
    var id := EffectiveId(input);
    var r := AddItem(items, input);
    if FindIndex(items, id) < 0 {
      forall i, j | 0 <= i < j < |r| ensures r[i].id != r[j].id {
        if j == |items| {
          assert r[i] == items[i];
        } else {
          assert r[i] == items[i] && r[j] == items[j];
        }
      }
    }
  }

  /** Successive `addItem` calls, in order: the last input is added last. */
  function AddAll(items: seq<CartItem>, inputs: seq<ItemInput>): seq<CartItem>
    decreases |inputs|
  {
    if |inputs| == 0 then items
    else AddItem(AddAll(items, inputs[..|inputs| - 1]), inputs[|inputs| - 1])
  }

  /** The sum of the quantities the inputs ask for, after `|| 1`. */
  function SumRequested(inputs: seq<ItemInput>): int
    decreases |inputs|
  {
    if |inputs| == 0 then 0
    else SumRequested(inputs[..|inputs| - 1]) + RequestedQty(inputs[|inputs| - 1].quantity)
  }

  /** All inputs resolve to this id and ask for a non-negative quantity. */
  predicate SameIdRequests(inputs: seq<ItemInput>, id: string) {
    forall i :: 0 <= i < |inputs| ==> EffectiveId(inputs[i]) == id && inputs[i].quantity >= 0
  }

  /** The requests of a prefix are requests of the same kind. */
  lemma SameIdRequestsPrefix(inputs: seq<ItemInput>, id: string, n: int)
    requires 0 <= n <= |inputs| && SameIdRequests(inputs, id)
    ensures SameIdRequests(inputs[..n], id)
  {
    var prefix := inputs[..n];
    forall i | 0 <= i < |prefix| ensures EffectiveId(prefix[i]) == id && prefix[i].quantity >= 0 {
      assert prefix[i] == inputs[i];
    }
  }

  /** Non-negative requests each ask for at least one unit (`0 || 1` is 1). */
  lemma {:induction false} SumRequestedAtLeastCount(inputs: seq<ItemInput>)
    requires forall i :: 0 <= i < |inputs| ==> inputs[i].quantity >= 0
    ensures SumRequested(inputs) >= |inputs|
    decreases |inputs|
  {
    if |inputs| > 0 {
      var prefix := inputs[..|inputs| - 1];
      assert forall i :: 0 <= i < |prefix| ==> prefix[i] == inputs[i];
      SumRequestedAtLeastCount(prefix);
    }
  }

  /** Capping after a non-negative addition absorbs an earlier cap. */
  lemma CapAbsorbs(x: int, a: int, maxQty: Option<int>)
    requires a >= 0
    ensures Cap(Cap(x, maxQty) + a, maxQty) == Cap(x + a, maxQty)
  {
  }

  /** One more addition of the id of line k, after line k was already re-set, merges into line k again. */
  lemma AddAfterSetQuantity(items: seq<CartItem>, input: ItemInput, k: int, q: int)
    requires FirstWithId(items, EffectiveId(input), k)
    ensures AddItem(WithQuantity(items, k, q), input) ==
      WithQuantity(items, k, Cap(q + RequestedQty(input.quantity), items[k].maxQty))
  {
    var prev := WithQuantity(items, k, q);
    assert FirstWithId(prev, EffectiveId(input), k) by {
      forall j | 0 <= j < k ensures prev[j].id != EffectiveId(input) {
        assert prev[j] == items[j];
      }
    }
    AddItemExisting(prev, input, k);
    WithQuantityTwice(items, k, q, Cap(q + RequestedQty(input.quantity), items[k].maxQty));
  }

  /**
    The inductive step of repeated additions: a list that is the cart with s
    units merged into line k, plus one more request, for t units in all.
   */
  lemma AddRepeatedStep(items: seq<CartItem>, cur: seq<CartItem>, next: seq<CartItem>, last: ItemInput, k: int, s: int, t: int)
    requires FirstWithId(items, EffectiveId(last), k) && last.quantity >= 0 && s >= 0
    requires t == s + RequestedQty(last.quantity)
    requires cur == WithQuantity(items, k, Cap(items[k].quantity + s, items[k].maxQty))
    requires next == AddItem(cur, last)
    ensures next == WithQuantity(items, k, Cap(items[k].quantity + t, items[k].maxQty))
  {
    var x := items[k].quantity + s;
    var a := RequestedQty(last.quantity);
    AddAfterSetQuantity(items, last, k, Cap(x, items[k].maxQty));
    CapAbsorbs(x, a, items[k].maxQty);
    assert x + a == items[k].quantity + t;
  }

  /** A single addition, seen as a run of one: the base case of `AddRepeatedExisting`. */
  lemma {:induction false} AddOnceExisting(items: seq<CartItem>, inputs: seq<ItemInput>, k: int)
    requires |inputs| == 1 && FirstWithId(items, EffectiveId(inputs[0]), k)
    ensures AddAll(items, inputs) == WithQuantity(items, k, Cap(items[k].quantity + SumRequested(inputs), items[k].maxQty))
  {
    assert inputs[..0] == [];
    assert SumRequested(inputs) == RequestedQty(inputs[0].quantity);
    assert AddAll(items, inputs) == AddItem(items, inputs[0]);
    AddItemExisting(items, inputs[0], k);
  }

  /**
    Repeated additions of an id already in the cart: its first line ends with
    the old quantity plus everything requested, capped by that line's cap,
    and nothing else changes.
   */
  lemma {:induction false} AddRepeatedExisting(items: seq<CartItem>, inputs: seq<ItemInput>, id: string, k: int)
    requires |inputs| >= 1 && SameIdRequests(inputs, id) && FirstWithId(items, id, k)
    ensures AddAll(items, inputs) == WithQuantity(items, k, Cap(items[k].quantity + SumRequested(inputs), items[k].maxQty))
    decreases |inputs|
  {
    var n := |inputs| - 1;
    var prefix, last := inputs[..n], inputs[n];
    if n == 0 {
      AddOnceExisting(items, inputs, k);
    } else {
      assert AddAll(items, inputs) == AddItem(AddAll(items, prefix), last);
      assert SumRequested(inputs) == SumRequested(prefix) + RequestedQty(last.quantity);
      SameIdRequestsPrefix(inputs, id, n);
      SumRequestedAtLeastCount(prefix);
      AddRepeatedExisting(items, prefix, id, k);
      AddRepeatedStep(items, AddAll(items, prefix), AddAll(items, inputs), last, k, SumRequested(prefix), SumRequested(inputs));
    }
  }

  /**
    Repeated additions of a new id: one line is appended; a single addition
    leaves the requested quantity uncapped, two or more leave the total
    requested, capped by the first input's cap.
   */
  lemma {:induction false} AddRepeatedFromAbsent(items: seq<CartItem>, inputs: seq<ItemInput>, id: string)
    requires |inputs| >= 1 && SameIdRequests(inputs, id) && !HasId(items, id)
    ensures var r := AddAll(items, inputs);
      && |r| == |items| + 1
      && r[..|items|] == items
      && r[|items|].id == id
      && CarriesInput(r[|items|], inputs[0])
      && r[|items|].quantity ==
           if |inputs| == 1 then RequestedQty(inputs[0].quantity)
           else Cap(SumRequested(inputs), inputs[0].maxQty)
    decreases |inputs|
  {
    var n := |inputs| - 1;
    var prefix, last := inputs[..n], inputs[n];
    if n == 0 {
      assert AddAll(items, prefix) == items;
      AddItemAbsent(items, last);
    } else {
      SameIdRequestsPrefix(inputs, id, n);
      AddRepeatedFromAbsent(items, prefix, id);
      var prev := AddAll(items, prefix);
      assert prefix[0] == inputs[0];
      assert FirstWithId(prev, id, |items|) by {
        forall j | 0 <= j < |items| ensures prev[j].id != id {
          assert prev[j] == prev[..|items|][j];
        }
      }
      AddItemExisting(prev, last, |items|);
      var r := AddItem(prev, last);
      assert r[..|items|] == items by {
        forall j | 0 <= j < |items| ensures r[..|items|][j] == items[j] {
          assert r[j] == prev[j] == prev[..|items|][j];
        }
      }
      if n == 1 {
        assert SumRequested(prefix) == RequestedQty(inputs[0].quantity) by {
          assert prefix[..0] == [];
        }
      } else {
        CapAbsorbs(SumRequested(prefix), RequestedQty(last.quantity), inputs[0].maxQty);
      }
    }
  }

  // ---------------------------------------------------------------------------
  // removeItem
  // ---------------------------------------------------------------------------

  /** Filtering keeps every other line as many times as it occurred and drops every line with the id. */
  lemma {:induction false} RemoveItemMultiplicity(items: seq<CartItem>, id: string)
    ensures forall x: CartItem :: x.id != id ==> multiset(RemoveItem(items, id))[x] == multiset(items)[x]
    ensures forall x: CartItem :: x.id == id ==> multiset(RemoveItem(items, id))[x] == 0
    decreases |items|
  {
    if |items| > 0 {
      RemoveItemMultiplicity(items[1..], id);
      assert items == [items[0]] + items[1..];
    }
  }

  /** Filtering respects concatenation, so the kept lines stay in their original relative order. */
  lemma {:induction false} RemoveItemConcat(a: seq<CartItem>, b: seq<CartItem>, id: string)
    ensures RemoveItem(a + b, id) == RemoveItem(a, id) + RemoveItem(b, id)
    decreases |a|
  {
    if |a| > 0 {
      assert (a + b)[1..] == a[1..] + b;
      RemoveItemConcat(a[1..], b, id);
    } else {
      assert a + b == b;
    }
  }

  /** Removing an id that is not there changes nothing. */
  lemma {:induction false} RemoveItemAbsent(items: seq<CartItem>, id: string)
    requires !HasId(items, id)
    ensures RemoveItem(items, id) == items
    decreases |items|
  {
    if |items| > 0 {
      assert !HasId(items[1..], id) by {
        forall i | 0 <= i < |items[1..]| ensures items[1..][i].id != id {
          assert items[1..][i] == items[i + 1];
        }
      }
      RemoveItemAbsent(items[1..], id);
      assert [items[0]] + items[1..] == items;
    }
  }

  /** Removing twice is removing once. */
  lemma RemoveItemIdempotent(items: seq<CartItem>, id: string)
    ensures RemoveItem(RemoveItem(items, id), id) == RemoveItem(items, id)
  {
    var r := RemoveItem(items, id);
    assert !HasId(r, id) by {
      forall i | 0 <= i < |r| ensures r[i].id != id {
        assert r[i] in r;
      }
    }
    RemoveItemAbsent(r, id);
  }

  /** With unique ids, removing the id of line k leaves the lines before and after it. */
  lemma {:induction false} RemoveItemUniqueAt(items: seq<CartItem>, k: int)
    requires UniqueIds(items) && 0 <= k < |items|
    ensures RemoveItem(items, items[k].id) == items[..k] + items[k + 1..]
  {
    var id := items[k].id;
    assert items == items[..k] + ([items[k]] + items[k + 1..]);
    RemoveItemConcat(items[..k], [items[k]] + items[k + 1..], id);
    RemoveItemConcat([items[k]], items[k + 1..], id);
    assert !HasId(items[..k], id) by {
      forall i | 0 <= i < k ensures items[..k][i].id != id {
        assert items[..k][i] == items[i];
      }
    }
    var after := items[k + 1..];
    assert !HasId(after, id) by {
      forall i | 0 <= i < |after| ensures after[i].id != id {
        assert after[i] == items[k + 1 + i];
      }
    }
    RemoveItemAbsent(items[..k], id);
    RemoveItemAbsent(items[k + 1..], id);
    assert [items[k]][1..] == [];
  }

  /** Unique ids survive dropping the first line, whose id none of the others has. */
  lemma UniqueIdsTail(items: seq<CartItem>)
    requires UniqueIds(items) && |items| > 0
    ensures UniqueIds(items[1..])
    ensures forall y :: y in items[1..] ==> y.id != items[0].id
  {
    var tail := items[1..];
    forall i, j | 0 <= i < j < |tail| ensures tail[i].id != tail[j].id {
      assert tail[i] == items[i + 1] && tail[j] == items[j + 1];
    }
    forall y | y in tail ensures y.id != items[0].id {
      var m :| 0 <= m < |tail| && tail[m] == y;
      assert items[m + 1] == y;
    }
  }

  /** A line whose id no other line has can be put in front of a list with unique ids. */
  lemma UniqueIdsCons(x: CartItem, rest: seq<CartItem>)
    requires UniqueIds(rest) && forall y :: y in rest ==> y.id != x.id
    ensures UniqueIds([x] + rest)
  {
    var r := [x] + rest;
    forall i, j | 0 <= i < j < |r| ensures r[i].id != r[j].id {
      assert r[j] == rest[j - 1] && rest[j - 1] in rest;
      if i > 0 {
        assert r[i] == rest[i - 1];
      }
    }
  }

  /** Filtering keeps ids unique. */
  lemma {:induction false} RemoveItemKeepsIdsUnique(items: seq<CartItem>, id: string)
    requires UniqueIds(items)
    ensures UniqueIds(RemoveItem(items, id))
    decreases |items|
  {
    if |items| > 0 {
      var tail := items[1..];
      UniqueIdsTail(items);
      RemoveItemKeepsIdsUnique(tail, id);
      if items[0].id != id {
        UniqueIdsCons(items[0], RemoveItem(tail, id));
      }
    }
  }

  // ---------------------------------------------------------------------------
  // updateQty
  // ---------------------------------------------------------------------------

  /** A non-positive quantity is exactly `removeItem`. */
  lemma UpdateQtyNonPositiveIsRemove(items: seq<CartItem>, id: string, qty: int)
    requires qty <= 0
    ensures UpdateQty(items, id, qty) == RemoveItem(items, id)
  {
  }

  /** A positive quantity touches every line with the id, leaves the others and all other fields alone. */
  lemma UpdateQtyPositive(items: seq<CartItem>, id: string, qty: int)
    requires qty > 0
    ensures var r := UpdateQty(items, id, qty);
      && |r| == |items|
      && (forall i :: 0 <= i < |items| ==> SameButQuantity(r[i], items[i]))
      && (forall i :: 0 <= i < |items| && items[i].id == id ==>
            r[i].quantity == (if TruthyNum(items[i].maxQty) && items[i].maxQty.value < qty then items[i].maxQty.value else qty))
      && (forall i :: 0 <= i < |items| && items[i].id != id ==> r[i] == items[i])
  {
  }

  /** Updating an id that is not there changes nothing, whatever the quantity. */
  lemma UpdateQtyAbsent(items: seq<CartItem>, id: string, qty: int)
    requires !HasId(items, id)
    ensures UpdateQty(items, id, qty) == items
  {
    if qty <= 0 {
      RemoveItemAbsent(items, id);
    } else {
      var r := UpdateQty(items, id, qty);
      assert forall i :: 0 <= i < |items| ==> r[i] == items[i];
    }
  }

  /** Setting the same quantity twice is setting it once. */
  lemma UpdateQtyIdempotent(items: seq<CartItem>, id: string, qty: int)
    ensures UpdateQty(UpdateQty(items, id, qty), id, qty) == UpdateQty(items, id, qty)
  {
    if qty <= 0 {
      RemoveItemIdempotent(items, id);
    } else {
      var r := UpdateQty(items, id, qty);
      var r2 := UpdateQty(r, id, qty);
      assert forall i :: 0 <= i < |r| ==> r2[i] == r[i];
    }
  }

  /** With unique ids and the id at line k, a positive update rewrites line k only. */
  lemma UpdateQtyUniqueAt(items: seq<CartItem>, k: int, qty: int)
    requires UniqueIds(items) && 0 <= k < |items| && qty > 0
    ensures UpdateQty(items, items[k].id, qty) == WithQuantity(items, k, Cap(qty, items[k].maxQty))
  {
    var r := UpdateQty(items, items[k].id, qty);
    var e := WithQuantity(items, k, Cap(qty, items[k].maxQty));
    assert forall i :: 0 <= i < |items| ==> r[i] == e[i];
  }

  /** Updating keeps ids unique. */
  lemma UpdateQtyKeepsIdsUnique(items: seq<CartItem>, id: string, qty: int)
    requires UniqueIds(items)
    ensures UniqueIds(UpdateQty(items, id, qty))
  {
    if qty <= 0 {
      RemoveItemKeepsIdsUnique(items, id);
    }
  }

  // ---------------------------------------------------------------------------
  // Quantity invariants
  // ---------------------------------------------------------------------------

  /** Every line has at least one unit. */
  predicate QuantitiesPositive(items: seq<CartItem>) {
    forall i :: 0 <= i < |items| ==> items[i].quantity >= 1
  }

  /** Every line with a truthy cap stays within it. */
  predicate WithinCaps(items: seq<CartItem>) {
    forall i :: 0 <= i < |items| && TruthyNum(items[i].maxQty) ==> items[i].quantity <= items[i].maxQty.value
  }

  /** No line carries a negative cap (zero is a falsy cap, i.e. none). */
  predicate CapsNonNegative(items: seq<CartItem>) {
    forall i :: 0 <= i < |items| && items[i].maxQty.Some? ==> items[i].maxQty.value >= 0
  }

  /** Adding keeps quantities positive as long as the request is not negative and caps are not negative. */
  lemma AddItemKeepsQuantitiesPositive(items: seq<CartItem>, input: ItemInput)
    requires QuantitiesPositive(items) && CapsNonNegative(items)
    requires input.quantity >= 0
    requires input.maxQty.Some? ==> input.maxQty.value >= 0
    ensures QuantitiesPositive(AddItem(items, input)) && CapsNonNegative(AddItem(items, input))
  {
    var r := AddItem(items, input);
    var k := FindIndex(items, EffectiveId(input));
    if k >= 0 {
      assert forall i :: 0 <= i < |items| && i != k ==> r[i] == items[i];
    } else {
      assert forall i :: 0 <= i < |items| ==> r[i] == items[i];
    }
  }

  /** A negative request is taken as is, so a merge can drive a quantity below one. */
  lemma AddItemNegativeQuantity()
    ensures var line := CartItem("tee", "tee", "Tee", 1000, "EUR", "", None, None, None, 1, None);
      var input := ItemInput(None, "tee", "Tee", 1000, "EUR", "", None, None, None, -5, None);
      AddItem([line], input)[0].quantity == -4 && !QuantitiesPositive(AddItem([line], input))
  {
  }

  /** Merging into an existing line respects caps; a new line respects its own only if the request does. */
  lemma AddItemKeepsCaps(items: seq<CartItem>, input: ItemInput)
    requires WithinCaps(items)
    requires !HasId(items, EffectiveId(input)) && TruthyNum(input.maxQty) ==>
      RequestedQty(input.quantity) <= input.maxQty.value
    ensures WithinCaps(AddItem(items, input))
  {
    var r := AddItem(items, input);
    var k := FindIndex(items, EffectiveId(input));
    if k >= 0 {
      assert forall i :: 0 <= i < |items| && i != k ==> r[i] == items[i];
    } else {
      assert forall i :: 0 <= i < |items| ==> r[i] == items[i];
    }
  }

  /** A newly appended line is not clamped to its cap: the cap invariant can be broken by `addItem`. */
  lemma AddItemSkipsCapOnNewLine()
    ensures var input := ItemInput(None, "tee", "Tee", 1000, "EUR", "", None, None, None, 10, Some(5));
      AddItem([], input)[0].quantity == 10 && !WithinCaps(AddItem([], input))
  {
  }

  /** `updateQty`, removing or setting, keeps positive quantities, non-negative caps and caps respected. */
  lemma UpdateQtyKeepsInvariants(items: seq<CartItem>, id: string, qty: int)
    requires QuantitiesPositive(items) && CapsNonNegative(items) && WithinCaps(items)
    ensures var r := UpdateQty(items, id, qty);
      QuantitiesPositive(r) && CapsNonNegative(r) && WithinCaps(r)
  {
    var r := UpdateQty(items, id, qty);
    if qty <= 0 {
      forall i | 0 <= i < |r| ensures r[i].quantity >= 1 && (r[i].maxQty.Some? ==> r[i].maxQty.value >= 0)
        && (TruthyNum(r[i].maxQty) ==> r[i].quantity <= r[i].maxQty.value)
      {
        assert r[i] in r;
        var m :| 0 <= m < |items| && items[m] == r[i];
      }
    }
  }

  /** Updating the quantity of a line with a cap of five to ten leaves five. */
  lemma UpdateQtyCapScenario()
    ensures var line := CartItem("tee", "tee", "Tee", 1000, "EUR", "", None, None, None, 1, Some(5));
      UpdateQty([line], "tee", 10) == [line.(quantity := 5)]
  {
  }
}
