# Cart store model

A Dafny model of the client-side shopping cart of the TiendaGbones storefront.
The cart lives in the `CartProvider` of `src/context/cart-context.tsx`. Without
the React plumbing, it is:

- an ordered list of line items (`CartItem`), changed by four pure transitions:
  `addItem`, `removeItem`, `updateQty` and `clearCart`;
- the identity key `generateItemId`, which decides when an addition merges into an existing line;
- two derived totals, `subtotalCents` and `itemCount`, recomputed on every render;
- a small lifecycle. The provider restores the cart from browser storage once on mount,
  falling back to the empty cart on any failure. It marks itself hydrated, then writes every later
  change back through a debounce timer, so only the last scheduled snapshot is written. It also
  keeps a transient open/closed flag for the cart panel.

It also models `halfCents` from `src/lib/money.ts`, which halves a price for display,
rounding a half cent up.

Modules:

| file | module | contents |
|---|---|---|
| `js_values.dfy` | `JsValues` | optional fields and the JavaScript truthiness behind `\|\|` and `?:` |
| `item_id.dfy` | `ItemId` | `generateItemId`, with `join`/`split` on `':'` |
| `cart_items.dfy` | `CartItems` | line items and the four item transitions, their invariants |
| `cart_totals.dfy` | `CartTotals` | `computeDerivedState` and how each transition moves the totals |
| `cart_session.dfy` | `CartSession` | restore, the hydration gate, the debounced save slot, the open flag |
| `money.dfy` | `Money` | `halfCents` as `Math.round(c / 2)` |

Modelling conventions:
- Every number is an unbounded `int`, so prices and quantities are exact.
- An optional field is an `Option`.
- A string is truthy when it is present and non-empty.
- A number is truthy when it is present and non-zero.
- So `input.quantity || 1` turns 0 into 1 but lets a negative quantity through.
- `maxQty ? … : …` applies the cap only when it is non-zero. A negative cap is truthy and does apply.
- The storage read is an abstract outcome: no `window`, a throwing read, missing, unparseable,
  not an array, or an array of items.
- A successful write is read back as the same array.
- The debounce timer is a slot holding the snapshot it will write. Its firing is an event, and the
  write inside it may fail.

Behaviours of the code that its own comments and names do not suggest:

- **Caps.** The `maxQty` field is commented as an optional cap (`src/context/cart-context.tsx:28`).
  `addItem` applies it only when merging. A *new* line is not capped, so an item added with
  quantity 10 and `maxQty` 5 has quantity 10 (`AddItemSkipsCapOnNewLine`).
- **Quantities.** The `quantity` field is commented `>= 1` (`src/context/cart-context.tsx:27`).
  A negative `addItem` quantity passes through `|| 1` and can drive a line below 1
  (`AddItemNegativeQuantity`). Positivity holds only for non-negative requests
  (`AddItemKeepsQuantitiesPositive`).
- **Duplicates.** The `id` field is commented as unique per product and variant
  (`src/context/cart-context.tsx:18`). Nothing enforces that on a restored list. `addItem` touches
  only the first line with the id, while `removeItem` and `updateQty` touch every line with it.
  Ids stay unique if they start unique.
- **Writes.** Hydration also schedules a write: the restored items, or `[]` after a corrupt read,
  are written back. Every item action reschedules, even one that leaves the list unchanged.
- **Snapshot timing.** The save captures its snapshot when it is scheduled, not when the timer
  fires. `Inv` shows the two agree: a scheduled snapshot always equals the current items.
- **Teardown.** Teardown cancels a pending write, so a change made within the debounce window
  before unmount is never written (`UnmountDropsPendingWrite`).

## Model

| member | source | states |
|---|---|---|
| `ItemId.Join` | src/context/cart-context.tsx:67 | `parts.join(":")` of n >= 1 parts has exactly the parts' combined length plus n - 1 separators, and starts with the first part |
| `ItemId.JoinSeparatorCount` | src/context/cart-context.tsx:67 | with separator-free parts, n parts join into a key with exactly n - 1 separators |
| `ItemId.SplitJoin` | src/context/cart-context.tsx:67 | splitting on the separator undoes the join when no part contains it |
| `ItemId.GenerateItemId` | src/context/cart-context.tsx:62-68 | the key starts with the slug, and is exactly the slug when variant, size and color are all absent or empty |
| `ItemId.GenerateItemIdParts` | src/context/cart-context.tsx:62-68 | when no field contains ':', splitting the key on ':' gives back the slug followed by exactly the non-empty fields among variant, size and color, in that order |
| `ItemId.GenerateItemIdCollisions` | src/context/cart-context.tsx:62-68 | the key does not tell the fields apart: a variant and a size with the same text collide, so do a slug containing ':' and a color, and an empty variant is the same as none |
| `CartItems.RequestedQty` | src/context/cart-context.tsx:184 | `quantity \|\| 1` turns a zero request into 1, keeps every non-zero request (negative ones included), so it is never 0 and is at least 1 for any non-negative request |
| `CartItems.Cap` | src/context/cart-context.tsx:185 | the capped value never exceeds the request; with a truthy cap it is the smaller of request and cap; with an absent or zero cap it is the request |
| `CartItems.EffectiveId` | src/context/cart-context.tsx:175 | `input.id \|\| generateItemId(input)`: a non-empty explicit id is used as is; an absent or empty one gives a key starting with the slug |
| `CartItems.NewItem` | src/context/cart-context.tsx:196-200 | the `{...input, id, quantity}` literal carries every field of the input, the resolved id and `quantity \|\| 1` |
| `CartItems.FindIndex` | src/context/cart-context.tsx:176 | `findIndex` returns -1 exactly when no line has the id, and otherwise the first position holding it |
| `CartItems.AddItem` | src/context/cart-context.tsx:173-204 | `addItem` never drops a line and adds at most one |
| `CartItems.AddItemHasId` | src/context/cart-context.tsx:173-204 | afterwards the cart always holds a line with the resolved id, and it grew by one line exactly when that id was absent |
| `CartItems.WithQuantity` | src/context/cart-context.tsx:180-190 | the copied list with slot k reassigned to `{...existing, quantity}`: same length, line k keeps its other fields and takes the new quantity, every other line is unchanged |
| `CartItems.WithQuantityTwice` | src/context/cart-context.tsx:180-190 | rewriting line k's quantity twice is the same as rewriting it once with the second value |
| `CartItems.CapAbsorbs` | src/context/cart-context.tsx:185 | capping again after adding a non-negative amount gives the same as capping once at the end |
| `CartItems.AddItemExisting` | src/context/cart-context.tsx:175-193 | with the id present, only its first line changes; its quantity becomes old + (`quantity \|\| 1`), capped by that line's truthy `maxQty`; every other field, the length and every other line are unchanged |
| `CartItems.AddItemAbsent` | src/context/cart-context.tsx:195-202 | with the id absent, exactly one line is appended after the untouched old lines; it carries the input's fields, the resolved id and quantity `quantity \|\| 1`, not capped |
| `CartItems.AddItemIdChoice` | src/context/cart-context.tsx:175-202 | the merge-or-append decision is made on the non-empty explicit id, or else on the generated key: the cart keeps its length exactly when that key was present, and holds it afterwards |
| `CartItems.AddItemKeepsIdsUnique` | src/context/cart-context.tsx:176-202 | if ids were pairwise distinct before `addItem`, they are after |
| `CartItems.AddRepeatedExisting` | src/context/cart-context.tsx:176-192 | one or more non-negative additions of an id already in the cart equal a single rewrite of its first line to old quantity plus the sum requested, capped by that line's cap; every other line is unchanged |
| `CartItems.AddRepeatedFromAbsent` | src/context/cart-context.tsx:175-202 | additions of a new id append one line; after one addition its quantity is the uncapped request, after two or more it is the total requested capped by the first input's cap |
| `CartItems.RemoveItem` | src/context/cart-context.tsx:206-208 | a line is in the result exactly when it was in the cart and its id differs |
| `CartItems.RemoveItemMultiplicity` | src/context/cart-context.tsx:207 | every line with another id keeps its multiplicity; no line with the id survives |
| `CartItems.RemoveItemConcat` | src/context/cart-context.tsx:207 | removal distributes over concatenation, so the kept lines stay in their original relative order |
| `CartItems.RemoveItemAbsent` | src/context/cart-context.tsx:207 | removing an id no line has leaves the cart unchanged |
| `CartItems.RemoveItemIdempotent` | src/context/cart-context.tsx:206-208 | removing the same id twice equals removing it once |
| `CartItems.RemoveItemUniqueAt` | src/context/cart-context.tsx:207 | with unique ids, removing line k's id leaves exactly the lines before and after it |
| `CartItems.RemoveItemKeepsIdsUnique` | src/context/cart-context.tsx:207 | removal keeps ids pairwise distinct |
| `CartItems.SetQty` | src/context/cart-context.tsx:217-227 | positive update: same length and ids, only quantities change, lines with the id get the capped quantity, other lines are unchanged |
| `CartItems.UpdateQty` | src/context/cart-context.tsx:210-228 | a non-positive quantity keeps exactly the lines with another id; a positive one keeps the length and the id of every position |
| `CartItems.UpdateQtyNonPositiveIsRemove` | src/context/cart-context.tsx:211-215 | `updateQty(id, q)` with q <= 0 equals `removeItem(id)` |
| `CartItems.UpdateQtyPositive` | src/context/cart-context.tsx:217-227 | with q > 0 each line with the id gets `min(q, maxQty)` when the cap is truthy and q otherwise; other lines and all other fields are unchanged |
| `CartItems.UpdateQtyAbsent` | src/context/cart-context.tsx:210-228 | updating an id no line has changes nothing, for any quantity |
| `CartItems.UpdateQtyIdempotent` | src/context/cart-context.tsx:210-228 | applying the same update twice equals applying it once |
| `CartItems.UpdateQtyUniqueAt` | src/context/cart-context.tsx:217-227 | with unique ids, a positive update of line k's id rewrites line k's quantity only |
| `CartItems.UpdateQtyKeepsIdsUnique` | src/context/cart-context.tsx:210-228 | updating keeps ids pairwise distinct |
| `CartItems.UpdateQtyKeepsInvariants` | src/context/cart-context.tsx:210-228 | positive quantities, non-negative caps and respected caps are all preserved by `updateQty` |
| `CartItems.UpdateQtyCapScenario` | src/context/cart-context.tsx:221 | a line capped at 5 updated to 10 ends at 5 |
| `CartItems.AddItemKeepsQuantitiesPositive` | src/context/cart-context.tsx:184-202 | for non-negative requests and non-negative caps, `addItem` keeps every quantity at least 1 |
| `CartItems.AddItemNegativeQuantity` | src/context/cart-context.tsx:184 | a negative request merges as is: a line of 1 plus -5 becomes -4, breaking positivity |
| `CartItems.AddItemKeepsCaps` | src/context/cart-context.tsx:185-200 | merging keeps caps respected whatever the input says, since it caps by the existing line's `maxQty`; a new line respects its cap only when the request does |
| `CartItems.AddItemSkipsCapOnNewLine` | src/context/cart-context.tsx:196-200 | a new line with request 10 and cap 5 holds 10: `addItem` can break the cap invariant |
| `CartItems.ClearCart` | src/context/cart-context.tsx:230-232 | `clearCart` yields the empty list |
| `CartTotals.TotalsConcat` | src/context/cart-context.tsx:114-117 | subtotal and item count are additive over concatenation |
| `CartTotals.ComputeDerivedState` | src/context/cart-context.tsx:114-118 | the two left-to-right `reduce` folds from 0 equal Σ priceCents × quantity and Σ quantity over the whole list |
| `CartTotals.LineTotalDelta` | src/context/cart-context.tsx:115 | two versions of a line differing only in quantity differ in line total by the price times the difference in units |
| `CartTotals.TotalsReplaceAt` | src/context/cart-context.tsx:114-117 | replacing one line moves both totals by exactly that line's difference |
| `CartTotals.TotalsSetQuantity` | src/context/cart-context.tsx:114-117 | rewriting one line's quantity moves the count by the change and the subtotal by price times the change |
| `CartTotals.TotalsDropAt` | src/context/cart-context.tsx:114-117 | dropping one line subtracts exactly its units and line total |
| `CartTotals.ItemCountAtLeastLines` | src/context/cart-context.tsx:116 | with positive quantities the item count is at least the number of lines, and is 0 exactly for the empty cart |
| `CartTotals.SubtotalNonNegative` | src/context/cart-context.tsx:115 | non-negative prices and quantities give a non-negative subtotal |
| `CartTotals.ClearCartTotals` | src/context/cart-context.tsx:230-232 | the cleared cart has subtotal 0 and item count 0 |
| `CartTotals.AddItemTotals` | src/context/cart-context.tsx:173-204 | a new line adds its requested units and its own line total at the input's price; a merge adds the units the cap lets through, never more than requested, and swaps the old line total for the new one at the unchanged price |
| `CartTotals.RemoveItemTotals` | src/context/cart-context.tsx:206-208 | with unique ids, removing a line subtracts its units and its line total |
| `CartTotals.UpdateQtyTotals` | src/context/cart-context.tsx:210-228 | with unique ids, a positive update moves the count by the capped change and swaps that line's total for its total at the capped quantity |
| `CartTotals.TeeScenario` | src/context/cart-context.tsx:173-204 | adding "tee" at 1000 cents with quantity 2 then 1 gives one line of 3, item count 3, subtotal 3000 |
| `CartSession.LoadCart` | src/context/cart-context.tsx:80-96 | a parsed array is returned as is, and a non-empty cart can only come from a parsed array |
| `CartSession.Initial` | src/context/cart-context.tsx:127-129 | the provider starts mounted, empty, closed, not hydrated, with nothing scheduled or written |
| `CartSession.SetItems` | src/context/cart-context.tsx:152-164 | a change of items cancels any scheduled save and schedules one of the new items exactly when hydrated; nothing is written |
| `CartSession.Perform` | src/context/cart-context.tsx:173-236 | panel actions leave items and schedule alone; item actions schedule a save exactly when hydrated; no action writes |
| `CartSession.Restore` | src/context/cart-context.tsx:146-150 | the mount effect sets the restored items, marks the provider hydrated and schedules writing them back |
| `CartSession.Fire` | src/context/cart-context.tsx:135-143 | the timer writes the held snapshot once if the write succeeds, never otherwise, empties the slot and leaves the items alone |
| `CartSession.StepKeepsInv` | src/context/cart-context.tsx:135-164 | every event keeps the gate invariant: no save scheduled before hydration or after unmount, and a scheduled snapshot equals the current items |
| `CartSession.RunKeepsInv` | src/context/cart-context.tsx:135-164 | any run of events keeps that invariant |
| `CartSession.NoWriteBeforeHydration` | src/context/cart-context.tsx:153-156 | before the mount effect, no event schedules or performs a write |
| `CartSession.ChangeReschedules` | src/context/cart-context.tsx:135-143 | after hydration each item change replaces the scheduled save with the current items |
| `CartSession.HydrateRestores` | src/context/cart-context.tsx:146-150 | hydration yields the stored array when the read parses to one and `[]` otherwise, and schedules writing it back |
| `CartSession.CorruptStorageGivesEmptyCart` | src/context/cart-context.tsx:83-95 | an unparseable stored value restores to the empty cart with zero totals |
| `CartSession.BurstWritesLastSnapshotOnce` | src/context/cart-context.tsx:135-143 | a burst of actions with at least one item change leaves one save holding the final items, and the timer then writes exactly that one snapshot |
| `CartSession.PanelActionsKeepPending` | src/context/cart-context.tsx:234-236 | open, close and toggle never touch the items, the schedule or storage |
| `CartSession.FailedWriteKeepsItems` | src/context/cart-context.tsx:104-108 | a failed write keeps the in-memory items, writes nothing and is not retried |
| `CartSession.UnmountedIgnoresEvents` | src/context/cart-context.tsx:158-163 | once unmounted, no event changes anything |
| `CartSession.UnmountDropsPendingWrite` | src/context/cart-context.tsx:158-163 | teardown cancels the scheduled save, so nothing more is ever written |
| `CartSession.SaveRestoreRoundTrip` | src/context/cart-context.tsx:101-109 | after the timer writes successfully, a fresh provider that hydrates from the written value starts with the same items in the same order |
| `CartSession.PanelActions` | src/context/cart-context.tsx:234-236 | open sets the flag, close clears it, toggle negates it, two toggles restore the state; nothing else changes |
| `Money.RoundDiv` | src/lib/money.ts:12 | `Math.round(n / d)` is the integer r with r - 1/2 <= n/d < r + 1/2 |
| `Money.RoundDivUnique` | src/lib/money.ts:12 | no other integer satisfies that |
| `Money.HalfCents` | src/lib/money.ts:11-13 | 2 × halfCents(c) - c is 0 or 1: half rounded toward +infinity |
| `Money.HalfCentsIsFloorOfSuccessorHalf` | src/lib/money.ts:11-13 | halfCents(c) equals (c + 1) / 2 under floor division |
| `Money.HalfCentsEven` | src/lib/money.ts:11-13 | even amounts halve exactly |
| `Money.HalfCentsBounds` | src/lib/money.ts:11-13 | for c >= 0, 0 <= halfCents(c) <= c |
| `Money.HalfCentsMonotone` | src/lib/money.ts:11-13 | a <= b implies halfCents(a) <= halfCents(b) |

## Left out

- React machinery is not modelled: `createContext`, `useState`, `useEffect`, `useRef`, `useCallback`,
  and the error `useCart` throws outside a provider. The provider state is a value, and effects are
  transitions.
- Several `setItems` calls in one event handler are batched into one render by React. The model applies
  them one at a time. The items and the final scheduled snapshot are the same either way.
- `localStorage`, `JSON.parse`, `JSON.stringify` and `console.error` are foreign calls:
  - a read is an abstract `StorageRead`;
  - a successful write is read back as the same array (`Persisted`);
  - logging is dropped.
- The storage key `gbones:cart:v1` is not modelled: the model has one storage slot.
- The elements of a parsed array are not checked by the source. The model assumes they are well-formed lines.
  A `null` element would throw in the `reduce` of `computeDerivedState` on the first render after
  hydration; a number, string or boolean element would give NaN totals. Neither case is modelled.
- `saveCartToStorage` returns early without `window`. That is not modelled, because its only caller,
  the save effect, runs in the browser.
- Timer timing (`setTimeout`, the 500 ms `DEBOUNCE_MS`) is abstracted to one pending slot and a
  `TimerFires` event. Only "the last scheduled snapshot wins" is kept.
- `addItem` has a branch `if (!existing) return prev;`. It cannot be taken once the index is
  valid and lines are records, so it is not modelled.
- `Money.HalfCents`: the source divides a double. The model is exact integer arithmetic, which agrees
  with the double computation only while |c| <= 2^53. NaN, infinities and fractional cents are not modelled.
- Quantities and prices are integers: NaN, fractional and non-number values that JavaScript would
  let through are not modelled.
- Totals and merged quantities are unbounded integers. In the source, `subtotalCents` and `itemCount`
  (cart-context.tsx:115-116) and the merged quantity `existing.quantity + ...` (:184) are doubles that stop
  being exact above 2^53. The model is exact there and does not model that rounding.
- `ItemId.Join`: the contract fixes the key's length and its first part. Where later parts sit is stated
  only by `ItemId.SplitJoin`, which needs parts without ':'. For parts that contain ':', only the
  definition fixes the key.
- `formatMoneyEUR`, `formatEURDirect` and the `formatPrice` helpers are display formatting
  (`Intl.NumberFormat`, floating-point division).
- The presentational components, authentication stubs, mock product catalogue, store config and pages are UI
  or fixtures, outside the cart store.
- The commented-out Firebase synchronisation plans are not code.
