/**
 * The menu card of one item: its stock guards and the cart calls its
 * buttons make. Each handler returns the actions it dispatches, computed
 * from the cart as the card last rendered it (`quantityInCart` is read once
 * per render) and from the text of the special-request field.
 */
module MenuItemCard {
  import opened Wrappers
  import opened Cart
  import opened CartProperties
  import Text

  /** The card's add buttons always add a single unit. */
  const CardAddQuantity: int := 1

  predicate IsOutOfStock(item: MenuItem) {
    item.availableQuantity <= 0
  }

  predicate IsInsufficientStock(cart: CartState, item: MenuItem) {
    GetItemQuantity(cart, item.id) >= item.availableQuantity
  }

  /**
   * On a cart whose lines are all positive (every reachable cart, by
   * `StockBound`), an out-of-stock item is also flagged as short of stock;
   * with stock left, the flag is raised once the cart holds the available
   * quantity, and an item not in the cart is short only when out of stock.
   */
  lemma StockFlags(cart: CartState, item: MenuItem)
    requires AllPositive(cart.items)
    ensures IsOutOfStock(item) ==> IsInsufficientStock(cart, item)
    ensures GetItemQuantity(cart, item.id) == item.availableQuantity ==> IsInsufficientStock(cart, item)
    ensures !ContainsId(cart.items, item.id) ==> (IsInsufficientStock(cart, item) <==> IsOutOfStock(item))
  {
    if ContainsId(cart.items, item.id) {
      var k := FindIndex(cart.items, item.id).value;
      assert GetItemQuantity(cart, item.id) == cart.items[k].quantity;
    }
  }

  /** Every action a card dispatches names the card's own item. */
  predicate AllFor(actions: seq<Action>, id: int) {
    forall k :: 0 <= k < |actions| ==> Targets(actions[k], id)
  }

  /**
   * The "add to cart" button: refused when out of stock; adds one unit with
   * the request text when the item is not in the cart; otherwise refused
   * when the cart already holds the stock, else one more unit, and the note
   * replaced when the request text is not empty.
   */
  function HandleAddToCart(cart: CartState, item: MenuItem, request: string): (acts: seq<Action>)
    ensures AllFor(acts, item.id) && |acts| <= 2
    ensures IsOutOfStock(item) ==> acts == []
    ensures GetItemQuantity(cart, item.id) != 0 && IsInsufficientStock(cart, item) ==> acts == []
  {
    var inCart := GetItemQuantity(cart, item.id);
    if IsOutOfStock(item) then []
    else if inCart == 0 then [AddItem(item, CardAddQuantity, Some(request))]
    else if IsInsufficientStock(cart, item) then []
    else
      [UpdateItemQuantity(item.id, inCart + 1)]
      + (if request != "" then [UpdateItemSpecialRequest(item.id, request)] else [])
  }

  /** The "+" button of the card's stepper: one more unit unless the cart already holds the stock. */
  function HandleIncreaseQuantity(cart: CartState, item: MenuItem): (acts: seq<Action>)
    ensures AllFor(acts, item.id) && |acts| <= 1
    ensures IsInsufficientStock(cart, item) ==> acts == []
  {
    if IsInsufficientStock(cart, item) then []
    else [UpdateItemQuantity(item.id, GetItemQuantity(cart, item.id) + 1)]
  }

  /** The "-" button of the card's stepper: one unit fewer, with no guard. */
  function HandleDecreaseQuantity(cart: CartState, item: MenuItem): (acts: seq<Action>)
    ensures AllFor(acts, item.id) && |acts| == 1
  {
    [UpdateItemQuantity(item.id, GetItemQuantity(cart, item.id) - 1)]
  }

  /**
   * The dialog's save button: refused when out of stock; adds one unit with
   * the request when the item is not in the cart, otherwise replaces only
   * the note.
   */
  function HandleSaveSpecialRequestAndAdd(cart: CartState, item: MenuItem, request: string): (acts: seq<Action>)
    ensures AllFor(acts, item.id) && |acts| <= 1
    ensures IsOutOfStock(item) ==> acts == []
  {
    if IsOutOfStock(item) then []
    else if GetItemQuantity(cart, item.id) == 0 then [AddItem(item, CardAddQuantity, Some(request))]
    else [UpdateItemSpecialRequest(item.id, request)]
  }

  /** `cartItems.find(ci => ci.id === id)?.specialRequest`: the first line's note, if any. */
  function NoteOf(cart: CartState, id: int): (r: Option<string>)
    ensures !ContainsId(cart.items, id) ==> r.None?
    ensures forall k :: IsFirst(cart.items, id, k) ==> r == cart.items[k].specialRequest
  {
    match Find(cart.items, id)
    case Some(line) => line.specialRequest
    case None => None
  }

  /**
   * The text the special-request dialog opens with: the line's note, or ""
   * when the item has no line or its line has no note or an empty one.
   */
  function OpenSpecialRequestText(cart: CartState, item: MenuItem): (text: string)
    ensures !ContainsId(cart.items, item.id) ==> text == ""
    ensures !Text.Truthy(NoteOf(cart, item.id)) ==> text == ""
    ensures Text.Truthy(NoteOf(cart, item.id)) ==> text == NoteOf(cart, item.id).value
  {
    Text.OrElse(NoteOf(cart, item.id), "")
  }

  datatype CardEvent =
    | AddToCart(item: MenuItem, request: string)
    | IncreaseQuantity(item: MenuItem)
    | DecreaseQuantity(item: MenuItem)
    | SaveSpecialRequest(item: MenuItem, request: string)

  function Handle(cart: CartState, e: CardEvent): (acts: seq<Action>)
    ensures AllFor(acts, e.item.id)
    ensures AddsPositive(acts)
  {
    match e
    case AddToCart(item, request) => HandleAddToCart(cart, item, request)
    case IncreaseQuantity(item) => HandleIncreaseQuantity(cart, item)
    case DecreaseQuantity(item) => HandleDecreaseQuantity(cart, item)
    case SaveSpecialRequest(item, request) => HandleSaveSpecialRequestAndAdd(cart, item, request)
  }

  /**
   * The cart after the card events, each handled against the cart the
   * previous one produced: the card re-renders between presses, so every
   * press reads the current quantity. Presses handled against one stale
   * render are not modelled.
   */
  function Run(cart: CartState, events: seq<CardEvent>): (r: CartState)
    ensures TotalsConsistent(cart) ==> TotalsConsistent(r)
    ensures |events| == 0 ==> r == cart
    decreases |events|
  {
    if |events| == 0 then cart else Run(Dispatch(cart, Handle(cart, events[0])), events[1..])
  }

  /** The quantity of `id` is zero or within the stock `avail`. */
  predicate WithinStock(cart: CartState, id: int, avail: int) {
    var q := GetItemQuantity(cart, id);
    q == 0 || q <= avail
  }

  // ---------------------------------------------------------------------------
  // What each button does to the cart

  /** A positive quantity for `id` means the cart has a line for it. */
  lemma InCart(cart: CartState, id: int)
    requires UniqueIds(cart.items) && AllPositive(cart.items)
    ensures GetItemQuantity(cart, id) >= 0
    ensures GetItemQuantity(cart, id) != 0 <==> ContainsId(cart.items, id)
  {
    if ContainsId(cart.items, id) {
      var k := FindIndex(cart.items, id).value;
      assert cart.items[k].quantity > 0;
    }
  }

  /**
   * "Add to cart" on a cart whose lines are all positive: out of stock, or
   * already holding the stock, changes nothing; an item not in the cart gets
   * one unit with the request text as its note; otherwise the item gets one
   * more unit and its note changes only when the request text is not empty.
   */
  lemma CardAddEffect(cart: CartState, item: MenuItem, request: string)
    requires UniqueIds(cart.items) && AllPositive(cart.items)
    ensures var q := GetItemQuantity(cart, item.id);
      var r := Dispatch(cart, HandleAddToCart(cart, item, request));
      && (IsOutOfStock(item) || (q != 0 && q >= item.availableQuantity) ==> r == cart)
      && (!IsOutOfStock(item) && q == 0 ==>
            GetItemQuantity(r, item.id) == 1 && NoteOf(r, item.id) == Some(request))
      && (!IsOutOfStock(item) && q != 0 && q < item.availableQuantity ==>
            && GetItemQuantity(r, item.id) == q + 1
            && NoteOf(r, item.id) == (if request != "" then Some(request) else NoteOf(cart, item.id)))
  {
    var id := item.id;
    var q := GetItemQuantity(cart, id);
    InCart(cart, id);
    var acts := HandleAddToCart(cart, item, request);
    if !IsOutOfStock(item) && q == 0 {
      DispatchShort(cart, acts[0], acts[0]);
      AddItemLookup(cart, item, CardAddQuantity, Some(request), id);
    } else if !IsOutOfStock(item) && q != 0 && q < item.availableQuantity {
      var up := UpdateItemQuantity(id, q + 1);
      var note := UpdateItemSpecialRequest(id, request);
      var r1 := Reduce(cart, up);
      UpdateQuantityLookup(cart, id, q + 1, id);
      ReducePreservesUniqueIds(cart, up);
      if request != "" {
        assert acts == [up, note];
        DispatchShort(cart, up, note);
        UpdateRequestLookup(r1, id, request, id);
      } else {
        assert acts == [up];
        DispatchShort(cart, up, up);
      }
    } else {
      DispatchShort(cart, ClearCart, ClearCart);
    }
  }

  /**
   * The card's "+" button on a cart whose lines are all positive: nothing
   * when the cart already holds the stock; one more unit otherwise; and
   * nothing either when the item has no line.
   */
  lemma CardIncreaseEffect(cart: CartState, item: MenuItem)
    requires UniqueIds(cart.items) && AllPositive(cart.items)
    ensures var q := GetItemQuantity(cart, item.id);
      var r := Dispatch(cart, HandleIncreaseQuantity(cart, item));
      && (IsInsufficientStock(cart, item) ==> r == cart)
      && (!IsInsufficientStock(cart, item) && q > 0 ==> GetItemQuantity(r, item.id) == q + 1)
      && (q == 0 ==> r.items == cart.items)
  {
    var id := item.id;
    var q := GetItemQuantity(cart, id);
    InCart(cart, id);
    var up := UpdateItemQuantity(id, q + 1);
    DispatchShort(cart, up, up);
    if !IsInsufficientStock(cart, item) {
      UpdateQuantityLookup(cart, id, q + 1, id);
      UpdateQuantitySpec(cart, id, q + 1);
    }
  }

  /**
   * The card's "-" button sets the quantity to one less, clamped at 0, so
   * decreasing from 1 removes the line altogether.
   */
  lemma CardDecreaseEffect(cart: CartState, item: MenuItem)
    requires UniqueIds(cart.items)
    ensures var q := GetItemQuantity(cart, item.id);
      var r := Dispatch(cart, HandleDecreaseQuantity(cart, item));
      && GetItemQuantity(r, item.id) == Max0(q - 1)
      && (q <= 1 ==> !ContainsId(r.items, item.id))
  {
    var id := item.id;
    var q := GetItemQuantity(cart, id);
    var down := UpdateItemQuantity(id, q - 1);
    assert HandleDecreaseQuantity(cart, item) == [down];
    DispatchShort(cart, down, down);
    var r := Reduce(cart, down);
    UpdateQuantityLookup(cart, id, q - 1, id);
    assert GetItemQuantity(r, id) == Max0(q - 1);
    UpdateQuantitySpec(cart, id, q - 1);
  }

  /**
   * The dialog's save button on a cart whose lines are all positive: out of
   * stock changes nothing; an item not in the cart gets one unit with the
   * request as its note; for an item in the cart only its note changes (every
   * quantity, every other line and the totals stay as they were).
   */
  lemma CardSaveEffect(cart: CartState, item: MenuItem, request: string)
    requires UniqueIds(cart.items) && AllPositive(cart.items)
    ensures var q := GetItemQuantity(cart, item.id);
      var r := Dispatch(cart, HandleSaveSpecialRequestAndAdd(cart, item, request));
      && (IsOutOfStock(item) ==> r == cart)
      && (!IsOutOfStock(item) && q == 0 ==>
            GetItemQuantity(r, item.id) == 1 && NoteOf(r, item.id) == Some(request))
      && (!IsOutOfStock(item) && q != 0 ==>
            && NoteOf(r, item.id) == Some(request)
            && (forall x :: GetItemQuantity(r, x) == GetItemQuantity(cart, x))
            && (forall x :: x != item.id ==> Find(r.items, x) == Find(cart.items, x))
            && (TotalsConsistent(cart) ==> r.totalItems == cart.totalItems && r.totalPrice == cart.totalPrice))
  {
    var id := item.id;
    var q := GetItemQuantity(cart, id);
    InCart(cart, id);
    var acts := HandleSaveSpecialRequestAndAdd(cart, item, request);
    if IsOutOfStock(item) {
      DispatchShort(cart, ClearCart, ClearCart);
    } else if q == 0 {
      DispatchShort(cart, acts[0], acts[0]);
      AddItemLookup(cart, item, CardAddQuantity, Some(request), id);
    } else {
      var note := UpdateItemSpecialRequest(id, request);
      DispatchShort(cart, note, note);
      UpdateRequestSpec(cart, id, request);
      forall x
        ensures GetItemQuantity(Reduce(cart, note), x) == GetItemQuantity(cart, x)
        ensures x != id ==> Find(Reduce(cart, note).items, x) == Find(cart.items, x)
      {
        UpdateRequestLookup(cart, id, request, x);
      }
      UpdateRequestLookup(cart, id, request, id);
    }
  }

  /**
   * Opening the dialog on an in-cart item with a note and saving it unedited
   * leaves the cart's lines exactly as they were.
   */
  lemma OpenThenSaveKeepsLines(cart: CartState, item: MenuItem)
    requires UniqueIds(cart.items) && AllPositive(cart.items)
    requires !IsOutOfStock(item) && Text.Truthy(NoteOf(cart, item.id))
    ensures Dispatch(cart, HandleSaveSpecialRequestAndAdd(cart, item, OpenSpecialRequestText(cart, item))).items
            == cart.items
  {
    var id := item.id;
    var text := OpenSpecialRequestText(cart, item);
    InCart(cart, id);
    var k := FindIndex(cart.items, id).value;
    var note := UpdateItemSpecialRequest(id, text);
    DispatchShort(cart, note, note);
    UpdateRequestSpec(cart, id, text);
    var r := Reduce(cart, note);
    forall j | 0 <= j < |cart.items|
      ensures r.items[j] == cart.items[j]
    {
      if cart.items[j].Id() == id {
        assert j == k;
      }
    }
  }

  // ---------------------------------------------------------------------------
  // The stock bound

  lemma AddStaysWithinStock(cart: CartState, item: MenuItem, request: string)
    requires UniqueIds(cart.items) && WithinStock(cart, item.id, item.availableQuantity)
    ensures WithinStock(Dispatch(cart, HandleAddToCart(cart, item, request)), item.id, item.availableQuantity)
  {
    var id := item.id;
    var q := GetItemQuantity(cart, id);
    var acts := HandleAddToCart(cart, item, request);
    if !IsOutOfStock(item) && q == 0 {
      DispatchShort(cart, acts[0], acts[0]);
      AddItemLookup(cart, item, CardAddQuantity, Some(request), id);
    } else if !IsOutOfStock(item) && !IsInsufficientStock(cart, item) {
      var up := UpdateItemQuantity(id, q + 1);
      var note := UpdateItemSpecialRequest(id, request);
      UpdateQuantityLookup(cart, id, q + 1, id);
      if request != "" {
        DispatchShort(cart, up, note);
        UpdateRequestLookup(Reduce(cart, up), id, request, id);
      } else {
        DispatchShort(cart, up, up);
      }
    } else {
      DispatchShort(cart, ClearCart, ClearCart);
    }
  }

  lemma IncreaseStaysWithinStock(cart: CartState, item: MenuItem)
    requires UniqueIds(cart.items) && WithinStock(cart, item.id, item.availableQuantity)
    ensures WithinStock(Dispatch(cart, HandleIncreaseQuantity(cart, item)), item.id, item.availableQuantity)
  {
    if IsInsufficientStock(cart, item) {
      assert Dispatch(cart, HandleIncreaseQuantity(cart, item)) == cart;
    } else {
      IncreaseBelowStock(cart, item);
    }
  }

  /** Below the stock, "+" sets the quantity to one more, which stays within stock. */
  lemma IncreaseBelowStock(cart: CartState, item: MenuItem)
    requires UniqueIds(cart.items) && !IsInsufficientStock(cart, item)
    ensures WithinStock(Dispatch(cart, HandleIncreaseQuantity(cart, item)), item.id, item.availableQuantity)
  {
    var q := GetItemQuantity(cart, item.id);
    OneMore(cart, item.id, q, item.availableQuantity, HandleIncreaseQuantity(cart, item));
  }

  /** Setting an id below its stock to one more than its quantity keeps it within stock. */
  lemma OneMore(cart: CartState, id: int, q: int, avail: int, acts: seq<Action>)
    requires UniqueIds(cart.items) && q == GetItemQuantity(cart, id) && q < avail
    requires acts == [UpdateItemQuantity(id, q + 1)]
    ensures WithinStock(Dispatch(cart, acts), id, avail)
  {
    var up := UpdateItemQuantity(id, q + 1);
    DispatchShort(cart, up, up);
    UpdateQuantityTarget(cart, id, q + 1);
  }

  lemma DecreaseStaysWithinStock(cart: CartState, item: MenuItem)
    requires UniqueIds(cart.items) && WithinStock(cart, item.id, item.availableQuantity)
    ensures WithinStock(Dispatch(cart, HandleDecreaseQuantity(cart, item)), item.id, item.availableQuantity)
  {
    CardDecreaseEffect(cart, item);
  }

  lemma SaveStaysWithinStock(cart: CartState, item: MenuItem, request: string)
    requires UniqueIds(cart.items) && WithinStock(cart, item.id, item.availableQuantity)
    ensures WithinStock(Dispatch(cart, HandleSaveSpecialRequestAndAdd(cart, item, request)), item.id, item.availableQuantity)
  {
    var id := item.id;
    var acts := HandleSaveSpecialRequestAndAdd(cart, item, request);
    if IsOutOfStock(item) {
      DispatchShort(cart, ClearCart, ClearCart);
    } else if GetItemQuantity(cart, id) == 0 {
      DispatchShort(cart, acts[0], acts[0]);
      AddItemLookup(cart, item, CardAddQuantity, Some(request), id);
    } else {
      var note := UpdateItemSpecialRequest(id, request);
      DispatchShort(cart, note, note);
      UpdateRequestLookup(cart, id, request, id);
    }
  }

  /** One card event keeps ids unique and the quantity of `id` within its stock. */
  lemma CardStep(cart: CartState, e: CardEvent, id: int, avail: int)
    requires UniqueIds(cart.items) && WithinStock(cart, id, avail)
    requires e.item.id == id ==> e.item.availableQuantity == avail
    ensures var r := Dispatch(cart, Handle(cart, e));
      UniqueIds(r.items) && WithinStock(r, id, avail)
  {
    var acts := Handle(cart, e);
    DispatchPreservesUniqueIds(cart, acts);
    if e.item.id != id {
      OtherActionsLookup(cart, acts, id);
    } else {
      match e
      case AddToCart(item, request) => AddStaysWithinStock(cart, item, request);
      case IncreaseQuantity(item) => IncreaseStaysWithinStock(cart, item);
      case DecreaseQuantity(item) => DecreaseStaysWithinStock(cart, item);
      case SaveSpecialRequest(item, request) => SaveStaysWithinStock(cart, item, request);
    }
  }

  lemma {:induction false} RunWithinStock(cart: CartState, events: seq<CardEvent>, id: int, avail: int)
    requires UniqueIds(cart.items) && WithinStock(cart, id, avail)
    requires forall k :: 0 <= k < |events| && events[k].item.id == id ==> events[k].item.availableQuantity == avail
    ensures UniqueIds(Run(cart, events).items) && WithinStock(Run(cart, events), id, avail)
    decreases |events|
  {
    if |events| > 0 {
      CardStep(cart, events[0], id, avail);
      RunWithinStock(Dispatch(cart, Handle(cart, events[0])), events[1..], id, avail);
    }
  }

  lemma {:induction false} RunKeepsPositive(cart: CartState, events: seq<CardEvent>)
    requires AllPositive(cart.items)
    ensures AllPositive(Run(cart, events).items)
    decreases |events|
  {
    if |events| > 0 {
      DispatchKeepsPositive(cart, Handle(cart, events[0]));
      RunKeepsPositive(Dispatch(cart, Handle(cart, events[0])), events[1..]);
    }
  }

  /**
   * Starting from an empty cart, any sequence of card button presses (for
   * this item and any others) leaves at most one line per id and the item's
   * quantity either 0 or at most its available stock; every line stays
   * positive, so the effect lemmas above apply to every cart reached this way.
   */
  lemma StockBound(events: seq<CardEvent>, id: int, avail: int)
    requires forall k :: 0 <= k < |events| && events[k].item.id == id ==> events[k].item.availableQuantity == avail
    ensures UniqueIds(Run(Empty, events).items)
    ensures WithinStock(Run(Empty, events), id, avail)
    ensures AllPositive(Run(Empty, events).items)
  {
    RunWithinStock(Empty, events, id, avail);
    RunKeepsPositive(Empty, events);
  }
}
