/**
  The lifecycle of the cart provider: restore once from browser storage,
  then write every change back through a debounce timer, and keep the
  transient open/closed flag beside the items.

  The storage read is an abstract outcome (JSON is not modelled); the timer
  is an abstract pending slot that holds the snapshot it will write.
 */
module CartSession {
  import opened JsValues
  import opened CartItems
  import CartTotals

  /** What `loadCartFromStorage` can run into. */
  datatype StorageRead =
    | NoWindow                          // rendered without `window`: not a browser
    | ReadThrows                        // `localStorage.getItem` threw
    | Missing                           // no entry, or the empty string
    | Unparseable                       // `JSON.parse` threw
    | NotAnArray                        // parsed, but not to an array
    | ArrayValue(items: seq<CartItem>)  // parsed to an array of lines

  /** `loadCartFromStorage`: the parsed array, or the empty cart on every other outcome. */
  function LoadCart(read: StorageRead): (r: seq<CartItem>)
    ensures read.ArrayValue? ==> r == read.items
    ensures |r| > 0 ==> read.ArrayValue?
  {
    match read
    case ArrayValue(items) => items
    case _ => []
  }

  /** What the next read returns after a successful `saveCartToStorage(items)`. */
  function Persisted(items: seq<CartItem>): StorageRead {
    ArrayValue(items)
  }

  /** The provider's state. `pending` is the snapshot held by the scheduled save timer, if any. */
  datatype Session = Session(
    items: seq<CartItem>,
    isCartOpen: bool,
    isHydrated: bool,
    mounted: bool,
    pending: Option<seq<CartItem>>,
    writes: seq<seq<CartItem>>)

  /** The operations the provider exposes. */
  datatype Action =
    | Add(input: ItemInput)
    | Remove(id: string)
    | Update(id: string, qty: int)
    | Clear
    | Open
    | Close
    | Toggle

  /** Everything that can happen to a mounted provider. */
  datatype Event =
    | Hydrate(read: StorageRead)   // the mount effect
    | Dispatch(action: Action)     // a call from the UI
    | TimerFires(writeOk: bool)    // the debounce timer elapses; the write may fail
    | Unmount                      // the effect cleanup on teardown

  /** The actions that go through `setItems`. */
  predicate ChangesItems(a: Action) {
    a.Add? || a.Remove? || a.Update? || a.Clear?
  }

  /**
    The invariant of the save gate: nothing is scheduled before hydration or
    after unmount, and a scheduled snapshot is always the current items.
   */
  predicate Inv(s: Session) {
    && (!s.isHydrated ==> s.pending.None?)
    && (!s.mounted ==> s.pending.None?)
    && (s.pending.Some? ==> s.pending.value == s.items)
  }

  /** The provider as first rendered: empty, closed, not hydrated. */
  function Initial(): (s: Session)
    ensures Inv(s) && s.mounted && !s.isHydrated && s.items == [] && !s.isCartOpen && s.writes == []
  {
    Session([], false, false, true, None, [])
  }

  /**
    `setItems(next)` followed by the save effect: the effect's cleanup
    cancels any scheduled save, and the effect schedules a save of the new
    items only once hydrated.
   */
  function SetItems(s: Session, next: seq<CartItem>): (r: Session)
    ensures r.items == next
    ensures r.pending.Some? <==> s.isHydrated
    ensures r.pending.Some? ==> r.pending.value == next
    ensures r.isCartOpen == s.isCartOpen && r.isHydrated == s.isHydrated && r.mounted == s.mounted
    ensures r.writes == s.writes
  {
    s.(items := next, pending := if s.isHydrated then Some(next) else None)
  }

  /** One provider action on a mounted provider. */
  function Perform(s: Session, a: Action): (r: Session)
    ensures r.isHydrated == s.isHydrated && r.mounted == s.mounted && r.writes == s.writes
    ensures !ChangesItems(a) ==> r.items == s.items && r.pending == s.pending
    ensures ChangesItems(a) ==> (r.pending.Some? <==> s.isHydrated)
  {
    match a
    case Add(input) => SetItems(s, AddItem(s.items, input))
    case Remove(id) => SetItems(s, RemoveItem(s.items, id))
    case Update(id, qty) => SetItems(s, UpdateQty(s.items, id, qty))
    case Clear => SetItems(s, ClearCart())
    case Open => s.(isCartOpen := true)
    case Close => s.(isCartOpen := false)
    case Toggle => s.(isCartOpen := !s.isCartOpen)
  }

  /** The mount effect: restore, mark hydrated; the save effect then schedules the restored items. */
  function Restore(s: Session, read: StorageRead): (r: Session)
    ensures r.isHydrated && r.items == LoadCart(read) && r.pending == Some(LoadCart(read))
    ensures r.isCartOpen == s.isCartOpen && r.mounted == s.mounted && r.writes == s.writes
  {
    var restored := LoadCart(read);
    s.(items := restored, isHydrated := true, pending := Some(restored))
  }

  /** The debounce timer fires: the held snapshot is written (or the failure only logged) and the slot empties. */
  function Fire(s: Session, writeOk: bool): (r: Session)
    ensures r.pending.None? && r.items == s.items && r.isCartOpen == s.isCartOpen
    ensures r.isHydrated == s.isHydrated && r.mounted == s.mounted
    ensures r.writes == if s.pending.Some? && writeOk then s.writes + [s.pending.value] else s.writes
  {
    match s.pending
    case None => s
    case Some(snapshot) => s.(pending := None, writes := if writeOk then s.writes + [snapshot] else s.writes)
  }

  /** One event. An unmounted provider ignores everything; its cleanup already cancelled the timer. */
  function Step(s: Session, e: Event): Session {
    if !s.mounted then s
    else
      match e
      case Hydrate(read) => Restore(s, read)
      case Dispatch(a) => Perform(s, a)
      case TimerFires(ok) => Fire(s, ok)
      case Unmount => s.(mounted := false, pending := None)
  }

  /** A run of events, in order. */
  function Run(s: Session, events: seq<Event>): Session
    decreases |events|
  {
    if |events| == 0 then s else Run(Step(s, events[0]), events[1..])
  }

  /** A run of provider actions, in order. */
  function PerformAll(s: Session, actions: seq<Action>): Session
    decreases |actions|
  {
    if |actions| == 0 then s else PerformAll(Perform(s, actions[0]), actions[1..])
  }

  // ---------------------------------------------------------------------------
  // The save gate
  // ---------------------------------------------------------------------------

  /** Every event keeps the save-gate invariant. */
  lemma StepKeepsInv(s: Session, e: Event)
    requires Inv(s)
    ensures Inv(Step(s, e))
  {
  }

  /** So does every run from the first render. */
  lemma {:induction false} RunKeepsInv(s: Session, events: seq<Event>)
    requires Inv(s)
    ensures Inv(Run(s, events))
    decreases |events|
  {
    if |events| > 0 {
      StepKeepsInv(s, events[0]);
      RunKeepsInv(Step(s, events[0]), events[1..]);
    }
  }

  /** Until the mount effect has run, nothing is scheduled and nothing is written, whatever else happens. */
  lemma {:induction false} NoWriteBeforeHydration(s: Session, events: seq<Event>)
    requires Inv(s) && !s.isHydrated
    requires forall i :: 0 <= i < |events| ==> !events[i].Hydrate?
    ensures var t := Run(s, events); !t.isHydrated && t.pending.None? && t.writes == s.writes
    decreases |events|
  {
    if |events| > 0 {
      StepKeepsInv(s, events[0]);
      RunKeepsInv(Step(s, events[0]), events[1..]);
      NoWriteBeforeHydration(Step(s, events[0]), events[1..]);
    }
  }

  /** After hydration, every change to the items replaces the scheduled save with the new items. */
  lemma ChangeReschedules(s: Session, a: Action)
    requires s.mounted && s.isHydrated && ChangesItems(a)
    ensures var t := Step(s, Dispatch(a)); t.pending == Some(t.items) && t.writes == s.writes
  {
  }

  /** The mount effect restores the stored array, or the empty cart, and schedules writing it back. */
  lemma HydrateRestores(s: Session, read: StorageRead)
    requires s.mounted
    ensures var t := Step(s, Hydrate(read));
      && t.isHydrated
      && t.items == (if read.ArrayValue? then read.items else [])
      && t.pending == Some(t.items)
      && t.writes == s.writes
  {
  }

  /** Corrupted storage yields the empty cart, not a failure. */
  lemma CorruptStorageGivesEmptyCart()
    ensures var t := Step(Initial(), Hydrate(Unparseable));
      t.items == [] && CartTotals.Subtotal(t.items) == 0 && CartTotals.ItemCount(t.items) == 0
  {
  }

  /**
    A burst of actions after hydration that changes the items at least once
    leaves one save scheduled, holding the final items; when the timer
    fires, exactly that one snapshot is written.
   */
  lemma {:induction false} BurstWritesLastSnapshotOnce(s: Session, actions: seq<Action>)
    requires Inv(s) && s.mounted && s.isHydrated
    requires exists i :: 0 <= i < |actions| && ChangesItems(actions[i])
    ensures var t := PerformAll(s, actions);
      && t.pending == Some(t.items)
      && t.writes == s.writes
      && Step(t, TimerFires(true)).writes == s.writes + [t.items]
      && Step(t, TimerFires(true)).items == t.items
    decreases |actions|
  {
    var s1 := Perform(s, actions[0]);
    assert Inv(s1);
    var rest := actions[1..];
    if exists i :: 0 <= i < |rest| && ChangesItems(rest[i]) {
      BurstWritesLastSnapshotOnce(s1, rest);
    } else {
      assert forall j :: 1 <= j < |actions| ==> !ChangesItems(actions[j]) by {
        forall j | 1 <= j < |actions| ensures !ChangesItems(actions[j]) {
          assert rest[j - 1] == actions[j];
        }
      }
      PanelActionsKeepPending(s1, rest);
    }
  }

  /** Actions that do not touch the items leave the items, the schedule and the writes alone. */
  lemma {:induction false} PanelActionsKeepPending(s: Session, actions: seq<Action>)
    requires forall i :: 0 <= i < |actions| ==> !ChangesItems(actions[i])
    ensures var t := PerformAll(s, actions);
      t.items == s.items && t.pending == s.pending && t.writes == s.writes
      && t.isHydrated == s.isHydrated && t.mounted == s.mounted
    decreases |actions|
  {
    if |actions| > 0 {
      var rest := actions[1..];
      assert forall i :: 0 <= i < |rest| ==> rest[i] == actions[i + 1];
      PanelActionsKeepPending(Perform(s, actions[0]), rest);
    }
  }

  /** A failed write leaves the items as they are and is not retried. */
  lemma FailedWriteKeepsItems(s: Session)
    requires s.mounted
    ensures var t := Step(s, TimerFires(false));
      t.items == s.items && t.pending.None? && t.writes == s.writes
  {
  }

  /** An unmounted provider ignores every later event. */
  lemma {:induction false} UnmountedIgnoresEvents(u: Session, events: seq<Event>)
    requires !u.mounted
    ensures Run(u, events) == u
    decreases |events|
  {
    if |events| > 0 {
      UnmountedIgnoresEvents(u, events[1..]);
    }
  }

  /** Teardown cancels the scheduled save: a change made less than a debounce window before it is never written. */
  lemma UnmountDropsPendingWrite(s: Session, events: seq<Event>)
    requires s.mounted
    ensures var u := Step(s, Unmount);
      && !u.mounted && u.pending.None? && u.items == s.items
      && Run(u, events).writes == s.writes
  {
    UnmountedIgnoresEvents(Step(s, Unmount), events);
  }

  /**
    Save then restore: after the timer writes the scheduled snapshot, a new
    provider that reads it back starts with the same items, in the same order.
   */
  lemma SaveRestoreRoundTrip(s: Session)
    requires Inv(s) && s.mounted && s.pending.Some?
    ensures var w := Step(s, TimerFires(true));
      && |w.writes| >= 1
      && Step(Initial(), Hydrate(Persisted(w.writes[|w.writes| - 1]))).items == s.items
  {
  }

  // ---------------------------------------------------------------------------
  // The open flag
  // ---------------------------------------------------------------------------

  /** Opening, closing and toggling set the flag as named and change nothing else. */
  lemma PanelActions(s: Session)
    requires s.mounted
    ensures Step(s, Dispatch(Open)) == s.(isCartOpen := true)
    ensures Step(s, Dispatch(Close)) == s.(isCartOpen := false)
    ensures Step(s, Dispatch(Toggle)).isCartOpen == !s.isCartOpen
    ensures Step(Step(s, Dispatch(Toggle)), Dispatch(Toggle)) == s
  {
  }
}
