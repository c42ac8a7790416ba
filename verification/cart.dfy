/**
 * The cart store: an ordered list of lines keyed by menu item id, with the
 * item and price totals recomputed from the lines after every transition.
 * `Reduce` is the reducer; the named operations (`addItem`, `removeItem`,
 * ...) are the actions it receives, and `Dispatch` runs a sequence of them.
 */
module Cart {
  import opened Wrappers

  /** A menu entry as fetched from the backend; prices are whole currency units. */
  datatype MenuItem = MenuItem(
    id: int,
    name: string,
    nameEn: Option<string>,
    description: string,
    descriptionEn: Option<string>,
    price: int,
    imageUrl: Option<string>,
    categoryId: string,
    imageHint: Option<string>,
    availableQuantity: int)

  /** A cart line: the menu item, how many of it, and the customer's note. */
  datatype Line = Line(item: MenuItem, quantity: int, specialRequest: Option<string>)
  {
    function Id(): int { item.id }
    function Subtotal(): int { item.price * quantity }
  }

  datatype CartState = CartState(items: seq<Line>, totalItems: int, totalPrice: int)

  datatype Action =
    | AddItem(item: MenuItem, quantity: int, specialRequest: Option<string>)
    | RemoveItem(itemId: int)
    | UpdateItemQuantity(itemId: int, quantity: int)
    | UpdateItemSpecialRequest(itemId: int, text: string)
    | ClearCart

  /** The state a session starts in and `ClearCart` returns to. */
  const Empty: CartState := CartState([], 0, 0)

  function SumQuantities(items: seq<Line>): int {
    if |items| == 0 then 0 else items[0].quantity + SumQuantities(items[1..])
  }

  function SumPrices(items: seq<Line>): int {
    if |items| == 0 then 0 else items[0].Subtotal() + SumPrices(items[1..])
  }

  /** The derived totals are exactly the recomputation from the lines. */
  predicate TotalsConsistent(s: CartState) {
    s.totalItems == SumQuantities(s.items) && s.totalPrice == SumPrices(s.items)
  }

  /** A state holding `items` together with the totals recomputed from them. */
  function WithTotals(items: seq<Line>): (r: CartState)
    ensures r.items == items && TotalsConsistent(r)
  {
    CartState(items, SumQuantities(items), SumPrices(items))
  }

  predicate ContainsId(items: seq<Line>, id: int) {
    exists k :: 0 <= k < |items| && items[k].Id() == id
  }

  /** At most one line per item id. */
  predicate UniqueIds(items: seq<Line>) {
    forall i, j :: 0 <= i < j < |items| ==> items[i].Id() != items[j].Id()
  }

  /** No line with a quantity of zero or less. */
  predicate AllPositive(items: seq<Line>) {
    forall k :: 0 <= k < |items| ==> items[k].quantity > 0
  }

  predicate IsFirst(items: seq<Line>, id: int, k: int) {
    && 0 <= k < |items|
    && items[k].Id() == id
    && forall j :: 0 <= j < k ==> items[j].Id() != id
  }

  /** `items.findIndex(i => i.id === id)`, with `None` for -1. */
  function FindIndex(items: seq<Line>, id: int): (r: Option<nat>)
    ensures r.None? <==> !ContainsId(items, id)
    ensures r.Some? ==> IsFirst(items, id, r.value)
  {
    if |items| == 0 then None
    else if items[0].Id() == id then Some(0)
    else
      match FindIndex(items[1..], id)
      case None =>
        assert forall k :: 1 <= k < |items| ==> items[k] == items[1..][k - 1];
        None
      case Some(k) =>
        assert forall j :: 1 <= j < k + 1 ==> items[j] == items[1..][j - 1];
        Some(k + 1)
  }

  /** `items.find(i => i.id === id)`. */
  function Find(items: seq<Line>, id: int): (r: Option<Line>)
    ensures r.None? <==> !ContainsId(items, id)
    ensures r.Some? ==> r.value in items && r.value.Id() == id
    ensures forall k :: IsFirst(items, id, k) ==> r == Some(items[k])
  {
    match FindIndex(items, id)
    case Some(k) => Some(items[k])
    case None => None
  }

  /** The quantity of the first line for `id`, or 0 when there is none. */
  function GetItemQuantity(s: CartState, id: int): (r: int)
    ensures !ContainsId(s.items, id) ==> r == 0
    ensures forall k :: IsFirst(s.items, id, k) ==> r == s.items[k].quantity
  {
    match Find(s.items, id)
    case Some(line) => line.quantity
    case None => 0
  }

  /** `Math.max(0, q)`. */
  function Max0(q: int): (r: int)
    ensures r >= 0 && r >= q
    ensures r == q || r == 0
  {
    if q < 0 then 0 else q
  }

  /** The line an `AddItem` produces from the existing line for the same id. */
  function Merge(line: Line, quantity: int, specialRequest: Option<string>): (r: Line)
    ensures r.item == line.item && r.quantity == line.quantity + quantity
    ensures specialRequest.Some? ==> r.specialRequest == specialRequest
    ensures specialRequest.None? ==> r.specialRequest == line.specialRequest
  {
    line.(quantity := line.quantity + quantity,
          specialRequest := if specialRequest.Some? then specialRequest else line.specialRequest)
  }

  /** Merge into the first line for the item's id, or append a new line. */
  function AddLine(items: seq<Line>, item: MenuItem, quantity: int, specialRequest: Option<string>): (r: seq<Line>)
    ensures ContainsId(r, item.id)
    ensures ContainsId(items, item.id) ==> |r| == |items|
    ensures !ContainsId(items, item.id) ==> r == items + [Line(item, quantity, specialRequest)]
  {
    match FindIndex(items, item.id)
    case Some(k) =>
      var r := items[k := Merge(items[k], quantity, specialRequest)];
      assert r[k].Id() == item.id;
      r
    case None =>
      var r := items + [Line(item, quantity, specialRequest)];
      assert r[|items|].Id() == item.id;
      r
  }

  /** `items.filter(item => item.id !== id)`. */
  function Without(items: seq<Line>, id: int): (r: seq<Line>)
    ensures |r| <= |items|
    ensures forall l :: l in r <==> l in items && l.Id() != id
    ensures !ContainsId(items, id) ==> r == items
  {
    if |items| == 0 then []
    else
      var rest := Without(items[1..], id);
      assert items == [items[0]] + items[1..];
      assert !ContainsId(items, id) ==> !ContainsId(items[1..], id) by {
        assert forall k :: 0 <= k < |items| - 1 ==> items[1..][k] == items[k + 1];
      }
      if items[0].Id() == id then rest else [items[0]] + rest
  }

  lemma {:induction false} WithoutUniqueIds(items: seq<Line>, id: int)
    requires UniqueIds(items)
    ensures UniqueIds(Without(items, id))
  {
    if |items| > 0 {
      assert UniqueIds(items[1..]) by {
        assert forall k :: 0 <= k < |items| - 1 ==> items[1..][k] == items[k + 1];
      }
      WithoutUniqueIds(items[1..], id);
      var rest := Without(items[1..], id);
      assert forall l :: l in rest ==> l.Id() != items[0].Id() by {
        forall l | l in rest
          ensures l.Id() != items[0].Id()
        {
          var k :| 0 <= k < |items| - 1 && items[1..][k] == l;
          assert items[k + 1] == l;
        }
      }
    }
  }

  /** `items.filter(item => item.quantity > 0)`. */
  function DropEmpty(items: seq<Line>): (r: seq<Line>)
    ensures |r| <= |items|
    ensures forall l :: l in r <==> l in items && l.quantity > 0
    ensures AllPositive(items) ==> r == items
  {
    if |items| == 0 then []
    else
      var rest := DropEmpty(items[1..]);
      assert forall l :: l in items[1..] ==> l in items;
      assert AllPositive(items) ==> AllPositive(items[1..]) by {
        assert forall k :: 0 <= k < |items| - 1 ==> items[1..][k] == items[k + 1];
      }
      assert items == [items[0]] + items[1..];
      if items[0].quantity <= 0 then rest else [items[0]] + rest
  }

  lemma {:induction false} DropEmptyUnique(items: seq<Line>)
    requires UniqueIds(items)
    ensures UniqueIds(DropEmpty(items))
  {
    if |items| > 0 {
      assert UniqueIds(items[1..]) by {
        assert forall k :: 0 <= k < |items| - 1 ==> items[1..][k] == items[k + 1];
      }
      DropEmptyUnique(items[1..]);
      var rest := DropEmpty(items[1..]);
      assert forall l :: l in rest ==> l.Id() != items[0].Id() by {
        forall l | l in rest
          ensures l.Id() != items[0].Id()
        {
          var k :| 0 <= k < |items| - 1 && items[1..][k] == l;
          assert items[k + 1] == l;
        }
      }
    }
  }

  /** The filter works piece by piece, so it keeps the surviving lines in their order. */
  lemma {:induction false} DropEmptyConcat(a: seq<Line>, b: seq<Line>)
    ensures DropEmpty(a + b) == DropEmpty(a) + DropEmpty(b)
  {
    if |a| > 0 {
      assert (a + b)[0] == a[0];
      assert (a + b)[1..] == a[1..] + b;
      DropEmptyConcat(a[1..], b);
    } else {
      assert a + b == b;
    }
  }

  /** Every line for `id` gets quantity `q`; the others are kept. */
  function WithQuantity(items: seq<Line>, id: int, q: int): (r: seq<Line>)
    ensures |r| == |items|
    ensures forall k :: 0 <= k < |r| ==> r[k].item == items[k].item && r[k].specialRequest == items[k].specialRequest
  {
    seq(|items|, k requires 0 <= k < |items| =>
      if items[k].Id() == id then items[k].(quantity := q) else items[k])
  }

  /** Every line for `id` gets the note `text`; the others are kept. */
  function WithRequest(items: seq<Line>, id: int, text: string): (r: seq<Line>)
    ensures |r| == |items|
    ensures forall k :: 0 <= k < |r| ==> r[k].item == items[k].item && r[k].quantity == items[k].quantity
  {
    seq(|items|, k requires 0 <= k < |items| =>
      if items[k].Id() == id then items[k].(specialRequest := Some(text)) else items[k])
  }

  /**
   * The reducer. It never fails: unknown ids are ignored, negative target
   * quantities are clamped to 0, and every resulting state carries totals
   * recomputed from its lines.
   */
  function Reduce(s: CartState, a: Action): (r: CartState)
    ensures TotalsConsistent(r)
    ensures a.ClearCart? ==> r.items == [] && r.totalItems == 0 && r.totalPrice == 0
    ensures a.UpdateItemQuantity? ==> AllPositive(r.items)
    ensures !a.AddItem? ==> |r.items| <= |s.items|
  {
    match a
    case AddItem(item, q, sr) => WithTotals(AddLine(s.items, item, q, sr))
    case RemoveItem(id) => WithTotals(Without(s.items, id))
    case UpdateItemQuantity(id, q) => WithTotals(DropEmpty(WithQuantity(s.items, id, Max0(q))))
    case UpdateItemSpecialRequest(id, text) => WithTotals(WithRequest(s.items, id, text))
    case ClearCart => Empty
  }

  /** The state after dispatching `actions` in order; any action leaves consistent totals behind. */
  function Dispatch(s: CartState, actions: seq<Action>): (r: CartState)
    ensures |actions| > 0 || TotalsConsistent(s) ==> TotalsConsistent(r)
    ensures |actions| == 0 ==> r == s
    decreases |actions|
  {
    if |actions| == 0 then s else Dispatch(Reduce(s, actions[0]), actions[1..])
  }
}
