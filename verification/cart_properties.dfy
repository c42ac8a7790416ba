/**
 * Properties of the cart reducer: id uniqueness is an invariant of every
 * action, each action has a per-id meaning stated through `Find`, and the
 * totals move by exactly the quantities and prices the action touches.
 */
module CartProperties {
  import opened Wrappers
  import opened Cart

  // ---------------------------------------------------------------------------
  // Sums

  lemma {:induction false} SumConcat(a: seq<Line>, b: seq<Line>)
    ensures SumQuantities(a + b) == SumQuantities(a) + SumQuantities(b)
    ensures SumPrices(a + b) == SumPrices(a) + SumPrices(b)
  {
    if |a| > 0 {
      assert (a + b)[1..] == a[1..] + b;
      SumConcat(a[1..], b);
    } else {
      assert a + b == b;
    }
  }

  /** Sequences that agree line by line on quantity and price have the same totals. */
  lemma {:induction false} SumsPointwise(a: seq<Line>, b: seq<Line>)
    requires |a| == |b|
    requires forall k :: 0 <= k < |a| ==> a[k].quantity == b[k].quantity && a[k].item.price == b[k].item.price
    ensures SumQuantities(a) == SumQuantities(b)
    ensures SumPrices(a) == SumPrices(b)
  {
    if |a| > 0 {
      SumsPointwise(a[1..], b[1..]);
    }
  }

  lemma SplitAt(a: seq<Line>, k: int)
    requires 0 <= k < |a|
    ensures a == a[..k] + [a[k]] + a[k + 1..]
  {
  }

  /** Replacing one line moves the totals by the difference of the two lines. */
  lemma SumReplace(a: seq<Line>, k: int, l: Line)
    requires 0 <= k < |a|
    ensures SumQuantities(a[k := l]) == SumQuantities(a) - a[k].quantity + l.quantity
    ensures SumPrices(a[k := l]) == SumPrices(a) - a[k].Subtotal() + l.Subtotal()
  {
    var b := a[k := l];
    SplitAt(a, k);
    SplitAt(b, k);
    assert b[..k] == a[..k] && b[k + 1..] == a[k + 1..];
    SumConcat(a[..k] + [a[k]], a[k + 1..]);
    SumConcat(a[..k], [a[k]]);
    SumConcat(b[..k] + [l], b[k + 1..]);
    SumConcat(b[..k], [l]);
  }

  // ---------------------------------------------------------------------------
  // Lookup

  /** In a cart with unique ids, looking up a line's id finds that very line. */
  lemma UniqueLookup(items: seq<Line>, k: int)
    requires UniqueIds(items) && 0 <= k < |items|
    ensures FindIndex(items, items[k].Id()) == Some(k)
    ensures Find(items, items[k].Id()) == Some(items[k])
  {
  }

  lemma UniqueLookupLine(items: seq<Line>, l: Line)
    requires UniqueIds(items) && l in items
    ensures Find(items, l.Id()) == Some(l)
  {
    var k :| 0 <= k < |items| && items[k] == l;
    UniqueLookup(items, k);
  }

  /** `findIndex` only looks at ids. */
  lemma FindIndexSameIds(a: seq<Line>, b: seq<Line>, x: int)
    requires |a| == |b|
    requires forall k :: 0 <= k < |a| ==> a[k].Id() == b[k].Id()
    ensures FindIndex(a, x) == FindIndex(b, x)
  {
    assert ContainsId(a, x) <==> ContainsId(b, x);
    if FindIndex(a, x).Some? {
      var i, j := FindIndex(a, x).value, FindIndex(b, x).value;
      assert IsFirst(b, x, i);
      assert IsFirst(a, x, j);
    }
  }

  lemma SameIdsUnique(a: seq<Line>, b: seq<Line>)
    requires |a| == |b|
    requires forall k :: 0 <= k < |a| ==> a[k].Id() == b[k].Id()
    requires UniqueIds(a)
    ensures UniqueIds(b)
  {
  }

  /**
   * `getItemQuantity` returns 0 for an id with no line and otherwise the
   * quantity of the line for that id.
   */
  lemma GetItemQuantityLookup(s: CartState, id: int)
    requires UniqueIds(s.items)
    ensures !ContainsId(s.items, id) ==> GetItemQuantity(s, id) == 0
    ensures forall k :: 0 <= k < |s.items| && s.items[k].Id() == id ==> GetItemQuantity(s, id) == s.items[k].quantity
  {
    forall k | 0 <= k < |s.items| && s.items[k].Id() == id
      ensures GetItemQuantity(s, id) == s.items[k].quantity
    {
      UniqueLookup(s.items, k);
    }
  }

  // ---------------------------------------------------------------------------
  // Uniqueness (at most one line per id) is kept by every action

  lemma ReducePreservesUniqueIds(s: CartState, a: Action)
    requires UniqueIds(s.items)
    ensures UniqueIds(Reduce(s, a).items)
  {
    match a
    case AddItem(item, q, sr) =>
      var r := AddLine(s.items, item, q, sr);
      if FindIndex(s.items, item.id).Some? {
        SameIdsUnique(s.items, r);
      } else {
        assert r == s.items + [Line(item, q, sr)];
      }
    case RemoveItem(id) =>
      WithoutUniqueIds(s.items, id);
    case UpdateItemQuantity(id, q) =>
      var m := WithQuantity(s.items, id, Max0(q));
      SameIdsUnique(s.items, m);
      DropEmptyUnique(m);
    case UpdateItemSpecialRequest(id, text) =>
      SameIdsUnique(s.items, WithRequest(s.items, id, text));
    case ClearCart =>
  }

  lemma {:induction false} DispatchPreservesUniqueIds(s: CartState, actions: seq<Action>)
    requires UniqueIds(s.items)
    ensures UniqueIds(Dispatch(s, actions).items)
    decreases |actions|
  {
    if |actions| > 0 {
      ReducePreservesUniqueIds(s, actions[0]);
      DispatchPreservesUniqueIds(Reduce(s, actions[0]), actions[1..]);
    }
  }

  // ---------------------------------------------------------------------------
  // Positive lines

  /** Every `AddItem` among `actions` adds a positive quantity. */
  predicate AddsPositive(actions: seq<Action>) {
    forall k :: 0 <= k < |actions| && actions[k].AddItem? ==> actions[k].quantity > 0
  }

  /** No action creates a line at 0 or below, as long as additions are positive. */
  lemma ReduceKeepsPositive(s: CartState, a: Action)
    requires AllPositive(s.items) && (a.AddItem? ==> a.quantity > 0)
    ensures AllPositive(Reduce(s, a).items)
  {
    match a
    case AddItem(item, q, sr) =>
      var r := AddLine(s.items, item, q, sr);
      match FindIndex(s.items, item.id) {
        case Some(i) =>
          assert r == s.items[i := Merge(s.items[i], q, sr)];
        case None =>
          assert r == s.items + [Line(item, q, sr)];
      }
    case RemoveItem(id) =>
      var r := Without(s.items, id);
      forall k | 0 <= k < |r|
        ensures r[k].quantity > 0
      {
        assert r[k] in s.items;
      }
    case UpdateItemQuantity(id, q) =>
    case UpdateItemSpecialRequest(id, text) =>
    case ClearCart =>
  }

  lemma {:induction false} DispatchKeepsPositive(s: CartState, actions: seq<Action>)
    requires AllPositive(s.items) && AddsPositive(actions)
    ensures AllPositive(Dispatch(s, actions).items)
    decreases |actions|
  {
    if |actions| > 0 {
      ReduceKeepsPositive(s, actions[0]);
      assert AddsPositive(actions[1..]) by {
        assert forall k :: 0 <= k < |actions| - 1 ==> actions[1..][k] == actions[k + 1];
      }
      DispatchKeepsPositive(Reduce(s, actions[0]), actions[1..]);
    }
  }

  // ---------------------------------------------------------------------------
  // ADD_ITEM

  /**
   * Adding an id that already has a line merges into that line in place: the
   * line keeps its item data and position, its quantity grows by the added
   * amount, its note is replaced only when a note is supplied (the empty
   * string included), and every other line is untouched. The totals grow by
   * the added quantity, priced at the existing line's price.
   */
  lemma AddItemExisting(s: CartState, item: MenuItem, q: int, sr: Option<string>, k: int)
    requires UniqueIds(s.items) && 0 <= k < |s.items| && s.items[k].Id() == item.id
    ensures var r := Reduce(s, AddItem(item, q, sr));
      && |r.items| == |s.items|
      && r.items[k].item == s.items[k].item
      && r.items[k].quantity == s.items[k].quantity + q
      && (sr.Some? ==> r.items[k].specialRequest == sr)
      && (sr.None? ==> r.items[k].specialRequest == s.items[k].specialRequest)
      && (forall j :: 0 <= j < |s.items| && j != k ==> r.items[j] == s.items[j])
      && (TotalsConsistent(s) ==>
            r.totalItems == s.totalItems + q && r.totalPrice == s.totalPrice + s.items[k].item.price * q)
  {
    UniqueLookup(s.items, k);
    var m := Merge(s.items[k], q, sr);
    SumReplace(s.items, k, m);
  }

  /**
   * Adding an id with no line appends exactly one line at the end, built from
   * the given item, quantity and note; ids stay unique and the totals grow by
   * the added quantity at the item's price.
   */
  lemma AddItemNew(s: CartState, item: MenuItem, q: int, sr: Option<string>)
    requires !ContainsId(s.items, item.id)
    ensures var r := Reduce(s, AddItem(item, q, sr));
      && r.items == s.items + [Line(item, q, sr)]
      && (UniqueIds(s.items) ==> UniqueIds(r.items))
      && (TotalsConsistent(s) ==>
            r.totalItems == s.totalItems + q && r.totalPrice == s.totalPrice + item.price * q)
  {
    SumConcat(s.items, [Line(item, q, sr)]);
  }

  /** The line for `x` after an `AddItem`, as a function of the line before. */
  function AfterAdd(before: Option<Line>, item: MenuItem, q: int, sr: Option<string>): Option<Line> {
    match before
    case Some(l) => Some(Merge(l, q, sr))
    case None => Some(Line(item, q, sr))
  }

  /**
   * Per id, `AddItem` merges into (or creates) the line of the added id and
   * leaves the line of every other id as it was.
   */
  lemma AddItemLookup(s: CartState, item: MenuItem, q: int, sr: Option<string>, x: int)
    ensures var r := Reduce(s, AddItem(item, q, sr));
      && Find(r.items, x) == (if x == item.id then AfterAdd(Find(s.items, x), item, q, sr) else Find(s.items, x))
      && GetItemQuantity(r, x) == GetItemQuantity(s, x) + (if x == item.id then q else 0)
  {
    var r := AddLine(s.items, item, q, sr);
    match FindIndex(s.items, item.id)
    case Some(k) =>
      FindIndexSameIds(s.items, r, x);
    case None =>
      var n := Line(item, q, sr);
      assert r == s.items + [n];
      if x == item.id {
        assert IsFirst(r, x, |s.items|);
      } else if ContainsId(s.items, x) {
        var j := FindIndex(s.items, x).value;
        assert IsFirst(r, x, j);
      } else {
        assert !ContainsId(r, x);
      }
  }

  /** The total of the quantities a sequence of `AddItem` actions adds. */
  function AddedQuantity(actions: seq<Action>): int
    requires forall k :: 0 <= k < |actions| ==> actions[k].AddItem?
  {
    if |actions| == 0 then 0 else actions[0].quantity + AddedQuantity(actions[1..])
  }

  /**
   * Any run of `addItem` calls for one id leaves exactly one line for it
   * (when at least one call was made), holding the sum of the added
   * quantities on top of what was there.
   */
  lemma {:induction false} RepeatedAdds(s: CartState, id: int, actions: seq<Action>)
    requires UniqueIds(s.items)
    requires forall k :: 0 <= k < |actions| ==> actions[k].AddItem? && actions[k].item.id == id
    ensures var r := Dispatch(s, actions);
      && UniqueIds(r.items)
      && GetItemQuantity(r, id) == GetItemQuantity(s, id) + AddedQuantity(actions)
      && (|actions| > 0 || ContainsId(s.items, id) ==> ContainsId(r.items, id))
    decreases |actions|
  {
    if |actions| > 0 {
      var a := actions[0];
      AddItemLookup(s, a.item, a.quantity, a.specialRequest, id);
      ReducePreservesUniqueIds(s, a);
      RepeatedAdds(Reduce(s, a), id, actions[1..]);
    }
  }

  // ---------------------------------------------------------------------------
  // REMOVE_ITEM

  /**
   * Removing keeps exactly the lines of other ids (their order is stated by
   * `RemoveItemExisting`); for an id with no line it returns the same lines,
   * and a state whose totals were consistent comes back structurally equal.
   */
  lemma RemoveItemSpec(s: CartState, id: int)
    ensures var r := Reduce(s, RemoveItem(id));
      && !ContainsId(r.items, id)
      && (forall l :: l in r.items <==> l in s.items && l.Id() != id)
      && (!ContainsId(s.items, id) ==> r.items == s.items)
      && (!ContainsId(s.items, id) && TotalsConsistent(s) ==> r == s)
  {
  }

  lemma TailUnique(items: seq<Line>)
    requires UniqueIds(items) && |items| > 0
    ensures UniqueIds(items[1..])
    ensures !ContainsId(items[1..], items[0].Id())
  {
    assert forall j :: 0 <= j < |items| - 1 ==> items[1..][j] == items[j + 1];
  }

  /** With unique ids, removing the first line's id removes exactly that line. */
  lemma WithoutDropsHead(items: seq<Line>)
    requires UniqueIds(items) && |items| > 0
    ensures Without(items, items[0].Id()) == items[1..]
  {
    TailUnique(items);
  }

  /** A leading line for another id is kept in front of the filtered tail. */
  lemma WithoutKeepsHead(items: seq<Line>, id: int, k: int)
    requires 0 < k < |items| && items[0].Id() != id
    requires Without(items[1..], id) == items[1..][..k - 1] + items[1..][k..]
    ensures Without(items, id) == items[..k] + items[k + 1..]
  {
    var tail := items[1..];
    assert tail[..k - 1] == items[1..k];
    assert tail[k..] == items[k + 1..];
    assert items[..k] == [items[0]] + items[1..k];
  }

  lemma {:induction false} WithoutUnique(items: seq<Line>, k: int)
    requires UniqueIds(items) && 0 <= k < |items|
    ensures Without(items, items[k].Id()) == items[..k] + items[k + 1..]
  {
    if k == 0 {
      WithoutDropsHead(items);
      assert items[..0] + items[1..] == items[1..];
    } else {
      TailUnique(items);
      assert items[1..][k - 1] == items[k];
      WithoutUnique(items[1..], k - 1);
      WithoutKeepsHead(items, items[k].Id(), k);
    }
  }

  /**
   * Removing the line at position `k` of a cart with unique ids drops exactly
   * that line, keeps the others in order, and lowers the totals by that
   * line's quantity and subtotal.
   */
  lemma RemoveItemExisting(s: CartState, k: int)
    requires UniqueIds(s.items) && 0 <= k < |s.items|
    ensures var r := Reduce(s, RemoveItem(s.items[k].Id()));
      && r.items == s.items[..k] + s.items[k + 1..]
      && |r.items| == |s.items| - 1
      && (TotalsConsistent(s) ==>
            r.totalItems == s.totalItems - s.items[k].quantity
            && r.totalPrice == s.totalPrice - s.items[k].Subtotal())
  {
    WithoutUnique(s.items, k);
    SplitAt(s.items, k);
    SumConcat(s.items[..k] + [s.items[k]], s.items[k + 1..]);
    SumConcat(s.items[..k], [s.items[k]]);
    SumConcat(s.items[..k], s.items[k + 1..]);
  }

  /** Per id, `RemoveItem` deletes the line of the removed id and keeps every other one. */
  lemma RemoveItemLookup(s: CartState, id: int, x: int)
    requires UniqueIds(s.items)
    ensures var r := Reduce(s, RemoveItem(id));
      && Find(r.items, x) == (if x == id then None else Find(s.items, x))
      && GetItemQuantity(r, x) == (if x == id then 0 else GetItemQuantity(s, x))
  {
    var r := Reduce(s, RemoveItem(id));
    RemoveItemSpec(s, id);
    WithoutUniqueIds(s.items, id);
    if x != id {
      match Find(s.items, x)
      case Some(l) =>
        assert l in r.items;
        UniqueLookupLine(r.items, l);
      case None =>
    }
  }

  // ---------------------------------------------------------------------------
  // UPDATE_ITEM_QUANTITY

  /**
   * After a quantity update no line has a quantity of zero or less (not only
   * the target: every such line is filtered); a target of zero or less removes
   * the target's line; and for an id with no line the update changes nothing
   * in a cart whose lines were all positive.
   */
  lemma UpdateQuantitySpec(s: CartState, id: int, q: int)
    ensures var r := Reduce(s, UpdateItemQuantity(id, q));
      && AllPositive(r.items)
      && (q <= 0 ==> !ContainsId(r.items, id))
      && (!ContainsId(s.items, id) && AllPositive(s.items) ==> r.items == s.items)
  {
    var m := WithQuantity(s.items, id, Max0(q));
    var r := Reduce(s, UpdateItemQuantity(id, q));
    if !ContainsId(s.items, id) {
      assert m == s.items;
    }
  }

  /** With unique ids, setting the quantity of line `k`'s id changes line `k` only. */
  lemma WithQuantityUnique(items: seq<Line>, k: int, q: int)
    requires UniqueIds(items) && 0 <= k < |items|
    ensures WithQuantity(items, items[k].Id(), q) == items[k := items[k].(quantity := q)]
  {
    var m := WithQuantity(items, items[k].Id(), q);
    forall j | 0 <= j < |m|
      ensures m[j] == items[k := items[k].(quantity := q)][j]
    {
      if j != k {
        assert items[j].Id() != items[k].Id();
      }
    }
  }

  /** Dropping a single empty line from between positive ones leaves the others in order. */
  lemma {:induction false} DropEmptyAt(m: seq<Line>, k: int)
    requires 0 <= k < |m| && m[k].quantity <= 0
    requires forall j :: 0 <= j < |m| && j != k ==> m[j].quantity > 0
    ensures DropEmpty(m) == m[..k] + m[k + 1..]
  {
    DropEmptyStep(m);
    ShiftOne(m, k);
    if k > 0 {
      DropEmptyAt(m[1..], k - 1);
    }
  }

  /** Removing position `k` of `m`, seen from `m`'s tail. */
  lemma ShiftOne(m: seq<Line>, k: int)
    requires 0 <= k < |m| && m[k].quantity <= 0
    requires forall j :: 0 <= j < |m| && j != k ==> m[j].quantity > 0
    ensures k == 0 ==> AllPositive(m[1..]) && m[..k] + m[k + 1..] == m[1..]
    ensures k > 0 ==>
      && m[0].quantity > 0
      && m[1..][k - 1].quantity <= 0
      && (forall j :: 0 <= j < |m| - 1 && j != k - 1 ==> m[1..][j].quantity > 0)
      && m[..k] + m[k + 1..] == [m[0]] + (m[1..][..k - 1] + m[1..][k..])
  {
    if k > 0 {
      assert m[..k] == [m[0]] + m[1..][..k - 1];
      assert m[k + 1..] == m[1..][k..];
    } else {
      assert m[..0] + m[1..] == m[1..];
    }
  }

  /** One step of the filter: the head is kept exactly when it is positive. */
  lemma DropEmptyStep(m: seq<Line>)
    requires |m| > 0
    ensures DropEmpty(m) == (if m[0].quantity > 0 then [m[0]] else []) + DropEmpty(m[1..])
  {
  }

  /**
   * In a cart with unique ids and positive lines, a quantity update of line
   * `k` works in place: a positive target replaces that line's quantity and
   * every line stays where it was; a target of 0 or less removes exactly that
   * line, the others keeping their order.
   */
  lemma UpdateQuantityExisting(s: CartState, k: int, q: int)
    requires UniqueIds(s.items) && AllPositive(s.items) && 0 <= k < |s.items|
    ensures var r := Reduce(s, UpdateItemQuantity(s.items[k].Id(), q));
      r.items == (if q > 0 then s.items[k := s.items[k].(quantity := q)] else s.items[..k] + s.items[k + 1..])
  {
    var m := WithQuantity(s.items, s.items[k].Id(), Max0(q));
    WithQuantityUnique(s.items, k, Max0(q));
    if q > 0 {
      assert AllPositive(m);
    } else {
      DropEmptyAt(m, k);
      assert m[..k] == s.items[..k] && m[k + 1..] == s.items[k + 1..];
    }
  }

  /** The line for `x` after `UpdateItemQuantity(id, q)`, as a function of the line before. */
  function AfterUpdateQuantity(before: Option<Line>, isTarget: bool, q: int): Option<Line> {
    match before
    case None => None
    case Some(l) =>
      var l' := if isTarget then l.(quantity := Max0(q)) else l;
      if l'.quantity > 0 then Some(l') else None
  }

  /**
   * Per id, a quantity update sets the target's line to `max(0, q)`, and then
   * every line (target or not) whose quantity is not positive disappears.
   */
  lemma UpdateQuantityLookup(s: CartState, id: int, q: int, x: int)
    requires UniqueIds(s.items)
    ensures var r := Reduce(s, UpdateItemQuantity(id, q));
      && Find(r.items, x) == AfterUpdateQuantity(Find(s.items, x), x == id, q)
      && GetItemQuantity(r, x) ==
           (if x == id then (if ContainsId(s.items, id) then Max0(q) else 0) else Max0(GetItemQuantity(s, x)))
  {
    var m := WithQuantity(s.items, id, Max0(q));
    var r := Reduce(s, UpdateItemQuantity(id, q));
    SameIdsUnique(s.items, m);
    DropEmptyUnique(m);
    match FindIndex(s.items, x)
    case None =>
    case Some(k) =>
      UniqueLookup(s.items, k);
      var l' := m[k];
      if l'.quantity > 0 {
        assert l' in m;
        UniqueLookupLine(r.items, l');
      }
  }
  /** The target's quantity alone after `UPDATE_ITEM_QUANTITY`. */
  lemma UpdateQuantityTarget(s: CartState, id: int, q: int)
    requires UniqueIds(s.items)
    ensures var after := GetItemQuantity(Reduce(s, UpdateItemQuantity(id, q)), id);
      && (ContainsId(s.items, id) && q > 0 ==> after == q)
      && (!ContainsId(s.items, id) || q <= 0 ==> after == 0)
  {
    UpdateQuantityLookup(s, id, q, id);
  }


  // ---------------------------------------------------------------------------
  // UPDATE_ITEM_SPECIAL_REQUEST

  /**
   * A note update changes only notes: every line keeps its position, item and
   * quantity, the lines of the target id get the new note, the totals are
   * those of the old lines, and for an id with no line nothing changes.
   */
  lemma UpdateRequestSpec(s: CartState, id: int, text: string)
    ensures var r := Reduce(s, UpdateItemSpecialRequest(id, text));
      && |r.items| == |s.items|
      && (forall k :: 0 <= k < |s.items| ==>
            && r.items[k].item == s.items[k].item
            && r.items[k].quantity == s.items[k].quantity
            && r.items[k].specialRequest == (if s.items[k].Id() == id then Some(text) else s.items[k].specialRequest))
      && r.totalItems == SumQuantities(s.items)
      && r.totalPrice == SumPrices(s.items)
      && (TotalsConsistent(s) ==> r.totalItems == s.totalItems && r.totalPrice == s.totalPrice)
      && (!ContainsId(s.items, id) ==> r.items == s.items)
  {
    SumsPointwise(s.items, WithRequest(s.items, id, text));
  }

  /** Per id, a note update replaces the target's note and leaves every other line alone. */
  lemma UpdateRequestLookup(s: CartState, id: int, text: string, x: int)
    ensures var r := Reduce(s, UpdateItemSpecialRequest(id, text));
      && Find(r.items, x) ==
           (if x == id && Find(s.items, x).Some? then Some(Find(s.items, x).value.(specialRequest := Some(text)))
            else Find(s.items, x))
      && GetItemQuantity(r, x) == GetItemQuantity(s, x)
  {
    FindIndexSameIds(s.items, WithRequest(s.items, id, text), x);
  }

  // ---------------------------------------------------------------------------
  // Short dispatch runs

  lemma DispatchShort(s: CartState, a: Action, b: Action)
    ensures Dispatch(s, []) == s
    ensures Dispatch(s, [a]) == Reduce(s, a)
    ensures Dispatch(s, [a, b]) == Reduce(Reduce(s, a), b)
  {
    assert [a][1..] == [];
    assert [a, b][1..] == [b];
    assert Dispatch(Reduce(s, a), [b]) == Reduce(Reduce(s, a), b) by {
      assert [b][1..] == [];
    }
  }

  // ---------------------------------------------------------------------------
  // Actions aimed at other ids

  /** Whether `a` names the id `x` (`ClearCart` names none). */
  predicate Targets(a: Action, x: int) {
    match a
    case AddItem(item, _, _) => item.id == x
    case RemoveItem(id) => id == x
    case UpdateItemQuantity(id, _) => id == x
    case UpdateItemSpecialRequest(id, _) => id == x
    case ClearCart => false
  }

  /**
   * An action aimed at another id either leaves the quantity of `x` alone or
   * drops its line (a quantity update filters every non-positive line, and a
   * clear drops them all); it never raises it.
   */
  lemma OtherActionLookup(s: CartState, a: Action, x: int)
    requires UniqueIds(s.items) && !Targets(a, x)
    ensures var q := GetItemQuantity(Reduce(s, a), x); q == GetItemQuantity(s, x) || q == 0
  {
    match a
    case AddItem(item, q, sr) => AddItemLookup(s, item, q, sr, x);
    case RemoveItem(id) => RemoveItemLookup(s, id, x);
    case UpdateItemQuantity(id, q) => UpdateQuantityLookup(s, id, q, x);
    case UpdateItemSpecialRequest(id, text) => UpdateRequestLookup(s, id, text, x);
    case ClearCart =>
  }

  lemma {:induction false} OtherActionsLookup(s: CartState, actions: seq<Action>, x: int)
    requires UniqueIds(s.items)
    requires forall k :: 0 <= k < |actions| ==> !Targets(actions[k], x)
    ensures var r := Dispatch(s, actions);
      && UniqueIds(r.items)
      && (GetItemQuantity(r, x) == GetItemQuantity(s, x) || GetItemQuantity(r, x) == 0)
    decreases |actions|
  {
    if |actions| > 0 {
      OtherActionLookup(s, actions[0], x);
      ReducePreservesUniqueIds(s, actions[0]);
      OtherActionsLookup(Reduce(s, actions[0]), actions[1..], x);
    }
  }

  // ---------------------------------------------------------------------------
  // The worked scenario: two adds of the same item, then a zero update

  lemma {:induction false} ScenarioAddAddClear(item: MenuItem)
    requires item.id == 1 && item.price == 10
    ensures var s1 := Reduce(Empty, AddItem(item, 2, None));
      var s2 := Reduce(s1, AddItem(item, 1, Some("no onions")));
      var s3 := Reduce(s2, UpdateItemQuantity(1, 0));
      && s2.items == [Line(item, 3, Some("no onions"))]
      && s2.totalItems == 3 && s2.totalPrice == 30
      && s3 == Empty
  {
    var s1 := Reduce(Empty, AddItem(item, 2, None));
    AddItemNew(Empty, item, 2, None);
    assert s1.items == [Line(item, 2, None)];
    AddItemExisting(s1, item, 1, Some("no onions"), 0);
    var s2 := Reduce(s1, AddItem(item, 1, Some("no onions")));
    assert s2.items == [Line(item, 3, Some("no onions"))];
    UpdateQuantitySpec(s2, 1, 0);
    var s3 := Reduce(s2, UpdateItemQuantity(1, 0));
    assert s3.items == [];
  }
}
