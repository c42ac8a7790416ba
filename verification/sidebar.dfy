/**
 * The cart sidebar: the lines as displayed (localised name, prefixed note),
 * the final total, and the cart calls of the per-line buttons.
 */
module CartSidebar {
  import opened Wrappers
  import opened Cart
  import opened CartProperties
  import Text
  import Locale

  /** The name shown for a line: the English name in English when it is non-empty. */
  function DisplayName(line: Line, locale: string): string {
    if locale == "en" && Text.Truthy(line.item.nameEn) then line.item.nameEn.value else line.item.name
  }

  /**
   * The sidebar's own name rule agrees with the locale context's
   * `translateData` once mounted.
   */
  lemma DisplayNameAgreesWithTranslateData(line: Line, st: Locale.LocaleState)
    requires st.mounted
    ensures DisplayName(line, st.locale) ==
      Locale.TranslateData(st, Locale.Translatable(line.item.name, line.item.nameEn,
        Some(line.item.description), line.item.descriptionEn, line)).name
  {
  }

  function NotePrefix(locale: string): string {
    if locale == "en" then "Note: " else "ملاحظة: "
  }

  /** The note shown for a line: a non-empty note with its label, otherwise none. */
  function DisplayNote(line: Line, locale: string): Option<string> {
    if Text.Truthy(line.specialRequest) then Some(NotePrefix(locale) + line.specialRequest.value) else None
  }

  /** `translatedItems`: each line with its displayed name and note. */
  function TranslatedItems(items: seq<Line>, locale: string): (r: seq<Line>)
    ensures |r| == |items|
    ensures forall k :: 0 <= k < |r| ==>
      && r[k].Id() == items[k].Id()
      && r[k].quantity == items[k].quantity
      && r[k].item.price == items[k].item.price
      && r[k].item.name == DisplayName(items[k], locale)
      && r[k].specialRequest == DisplayNote(items[k], locale)
  {
    seq(|items|, k requires 0 <= k < |items| =>
      items[k].(item := items[k].item.(name := DisplayName(items[k], locale)),
                specialRequest := DisplayNote(items[k], locale)))
  }

  /** The tax stub: the amount is the total times one. */
  function TaxAmount(s: CartState): int {
    s.totalPrice * 1
  }

  /** The total shown: the cart total plus a zero tax term. */
  function FinalTotal(s: CartState): int {
    s.totalPrice + 0
  }

  /**
   * The displayed lines keep the cart's order, ids and quantities, and the
   * displayed total is the sum of the displayed lines' subtotals, i.e. the
   * cart's own total; the tax terms change nothing.
   */
  lemma DisplayMatchesCart(s: CartState, locale: string)
    requires TotalsConsistent(s)
    ensures var shown := TranslatedItems(s.items, locale);
      && |shown| == |s.items|
      && (forall k :: 0 <= k < |shown| ==> shown[k].Id() == s.items[k].Id() && shown[k].quantity == s.items[k].quantity)
      && FinalTotal(s) == s.totalPrice == TaxAmount(s)
      && FinalTotal(s) == SumPrices(shown)
      && s.totalItems == SumQuantities(shown)
  {
    SumsPointwise(s.items, TranslatedItems(s.items, locale));
  }

  /** A note is shown as the English or the Arabic label followed by the customer's text; an empty or absent one is not shown. */
  lemma DisplayNoteShape(line: Line, locale: string)
    ensures !Text.Truthy(line.specialRequest) ==> DisplayNote(line, locale).None?
    ensures Text.Truthy(line.specialRequest) ==>
      && DisplayNote(line, locale).Some?
      && |DisplayNote(line, locale).value| > |line.specialRequest.value|
      && DisplayNote(line, locale).value[|DisplayNote(line, locale).value| - |line.specialRequest.value|..] == line.specialRequest.value
      && (locale == "en" ==> DisplayNote(line, locale).value == "Note: " + line.specialRequest.value)
      && (locale != "en" ==> DisplayNote(line, locale).value == "ملاحظة: " + line.specialRequest.value)
  {
  }

  function IncreaseButton(line: Line): Action {
    UpdateItemQuantity(line.Id(), line.quantity + 1)
  }

  function DecreaseButton(line: Line): Action {
    UpdateItemQuantity(line.Id(), line.quantity - 1)
  }

  function RemoveButton(line: Line): Action {
    RemoveItem(line.Id())
  }

  /** The footer's "empty cart" button: whatever the cart held, it is left empty. */
  function EmptyCartButton(): (a: Action)
    ensures forall s :: Reduce(s, a) == Empty
  {
    ClearCart
  }

  /**
   * The buttons of displayed row `k` act on cart line `k`: "+" adds one unit
   * (clamped as any quantity update), "-" removes one and drops the line at
   * zero, and the bin removes the line.
   */
  lemma RowButtons(s: CartState, locale: string, k: int)
    requires UniqueIds(s.items) && 0 <= k < |s.items|
    ensures var row := TranslatedItems(s.items, locale)[k];
      var id := s.items[k].Id();
      var q := s.items[k].quantity;
      && GetItemQuantity(Reduce(s, IncreaseButton(row)), id) == Max0(q + 1)
      && GetItemQuantity(Reduce(s, DecreaseButton(row)), id) == Max0(q - 1)
      && !ContainsId(Reduce(s, RemoveButton(row)).items, id)
  {
    var row := TranslatedItems(s.items, locale)[k];
    var id := s.items[k].Id();
    var q := s.items[k].quantity;
    assert IncreaseButton(row) == UpdateItemQuantity(id, q + 1);
    assert DecreaseButton(row) == UpdateItemQuantity(id, q - 1);
    assert RemoveButton(row) == RemoveItem(id);
    assert ContainsId(s.items, id);
    UpdateQuantityTarget(s, id, q + 1);
    UpdateQuantityTarget(s, id, q - 1);
    RemoveItemSpec(s, id);
  }

  /**
   * The "+" button checks no stock: a cart already holding all of an item's
   * stock gets one unit more than the stock.
   */
  lemma IncreaseButtonIgnoresStock(item: MenuItem)
    requires item.availableQuantity > 0
    ensures var s := WithTotals([Line(item, item.availableQuantity, None)]);
      GetItemQuantity(Reduce(s, IncreaseButton(s.items[0])), item.id) == item.availableQuantity + 1
  {
    var s := WithTotals([Line(item, item.availableQuantity, None)]);
    UniqueLookup(s.items, 0);
    UpdateQuantityLookup(s, item.id, item.availableQuantity + 1, item.id);
  }
}
