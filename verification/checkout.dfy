/**
 * The checkout form: its schema, the payment-proof file check, the delivery
 * checks of `onSubmit`, the order payload built from the cart, and the
 * clearing of the cart once the backend accepts the order.
 */
module Checkout {
  import opened Wrappers
  import opened Cart
  import opened CartProperties
  import opened Session
  import Text

  datatype OrderType = Pickup | Delivery

  /** A form coordinate: never set, explicitly `null`, or a value. */
  datatype Coordinate = Undefined | Null | At(degrees: real)

  /** The only payment method the schema admits (a bank transfer). */
  const BankTransfer: string := "حوالة"

  datatype CheckoutValues = CheckoutValues(
    customerName: string,
    customerPhone: string,
    orderType: OrderType,
    paymentMethod: string,
    address: Option<string>,
    locationDescription: Option<string>,
    paymentProof: Option<string>,
    gpsLink: Option<string>,
    latitude: Coordinate,
    longitude: Coordinate,
    notes: Option<string>)

  /** The signed-in state as the form reads it. */
  datatype Auth = Auth(isAuthenticated: bool, user: Option<User>)

  /** The form's initial values. */
  const Defaults: CheckoutValues :=
    CheckoutValues("", "", Pickup, BankTransfer, Some(""), Some(""), None, Some(""), Null, Null, Some(""))

  // ---------------------------------------------------------------------------
  // Schema and form effects

  /**
   * The schema the form validates before `onSubmit` runs: a name of at least
   * 2 characters, a phone of at least 9, the bank-transfer method, and a
   * payment proof of at least 10 characters; the other fields are free.
   */
  predicate SchemaValid(v: CheckoutValues) {
    && |v.customerName| >= 2
    && |v.customerPhone| >= 9
    && v.paymentMethod == BankTransfer
    && v.paymentProof.Some? && |v.paymentProof.value| >= 10
  }

  /** Choosing pickup blanks every delivery field; choosing delivery changes nothing. */
  function OnOrderTypeChange(v: CheckoutValues): (r: CheckoutValues)
    ensures v.orderType == Delivery ==> r == v
    ensures v.orderType == Pickup ==>
      && r.address == Some("") && r.locationDescription == Some("") && r.gpsLink == Some("")
      && r.latitude == Null && r.longitude == Null
      && r.customerName == v.customerName && r.customerPhone == v.customerPhone
      && r.paymentProof == v.paymentProof && r.notes == v.notes
    ensures r.(address := v.address, locationDescription := v.locationDescription, gpsLink := v.gpsLink,
               latitude := v.latitude, longitude := v.longitude) == v
  {
    if v.orderType == Pickup then
      v.(address := Some(""), locationDescription := Some(""), gpsLink := Some(""), latitude := Null, longitude := Null)
    else v
  }

  /**
   * A signed-in user's name and phone replace the form's values; every other
   * field goes back to its default: pickup, bank transfer, no proof, blank
   * text fields and `null` coordinates.
   */
  function Prefill(v: CheckoutValues, auth: Auth): (r: CheckoutValues)
    ensures !(auth.isAuthenticated && auth.user.Some?) ==> r == v
    ensures auth.isAuthenticated && auth.user.Some? ==>
      && r.customerName == auth.user.value.name && r.customerPhone == auth.user.value.phone
      && r.orderType == Pickup && r.paymentMethod == BankTransfer && r.paymentProof.None?
      && r.address == Some("") && r.locationDescription == Some("") && r.gpsLink == Some("")
      && r.notes == Some("") && r.latitude == Null && r.longitude == Null
  {
    if auth.isAuthenticated && auth.user.Some? then
      Defaults.(customerName := auth.user.value.name, customerPhone := auth.user.value.phone)
    else v
  }

  /**
   * A prefilled form is already in the state choosing pickup produces, it
   * names the account holder on the order, and it cannot be submitted before
   * a proof is chosen.
   */
  lemma PrefillIsSettledPickup(v: CheckoutValues, auth: Auth, orderDate: string, items: seq<Line>)
    requires auth.isAuthenticated && auth.user.Some?
    ensures OnOrderTypeChange(Prefill(v, auth)) == Prefill(v, auth)
    ensures BuildPayload(Prefill(v, auth), auth, items, orderDate).customerName == auth.user.value.name
    ensures !SchemaValid(Prefill(v, auth))
  {
  }

  /** The start of the map link the geolocation callback stores. */
  const MapsLinkPrefix: string := "https://maps.google.com/?q="

  /**
   * The geolocation callback: the map link and both coordinates are stored.
   * `latText` and `lngText` are the coordinates as JavaScript prints them;
   * number formatting is not modelled.
   */
  function OnLocated(v: CheckoutValues, lat: real, lng: real, latText: string, lngText: string): (r: CheckoutValues)
    ensures r.latitude == At(lat) && r.longitude == At(lng)
    ensures r.gpsLink.Some? && |r.gpsLink.value| > |MapsLinkPrefix|
    ensures r.gpsLink.value[..|MapsLinkPrefix|] == MapsLinkPrefix
    ensures r.gpsLink.value[|MapsLinkPrefix|..] == latText + "," + lngText
    ensures r.(gpsLink := v.gpsLink, latitude := v.latitude, longitude := v.longitude) == v
  {
    v.(gpsLink := Some(MapsLinkPrefix + latText + "," + lngText), latitude := At(lat), longitude := At(lng))
  }

  // ---------------------------------------------------------------------------
  // Payment-proof file

  datatype SelectedFile = SelectedFile(mimeType: string)

  /** The proof preview, its file type, and the form's `paymentProof` value. */
  datatype ProofField = ProofField(preview: Option<string>, fileType: Option<string>, paymentProof: Option<string>)

  const AllowedTypes: seq<string> := ["image/jpeg", "image/png", "image/webp"]

  /** The state `resetPaymentProof` leaves. */
  const ClearedProof: ProofField := ProofField(None, None, Some(""))

  predicate AllowedFileType(mimeType: string) {
    mimeType in AllowedTypes
  }

  /**
   * Choosing a file: none chosen, a type other than JPEG/PNG/WEBP, or a file
   * that could not be read (`encoded` is the file's base64 text, `None` when
   * reading failed) clears the proof; otherwise the encoded file becomes the
   * proof and its type is kept for the preview.
   */
  function HandleFileChange(file: Option<SelectedFile>, encoded: Option<string>): (r: ProofField)
    ensures r.fileType.Some? <==> file.Some? && AllowedFileType(file.value.mimeType) && encoded.Some?
    ensures r.fileType.Some? ==>
      r == ProofField(encoded, Some(file.value.mimeType), encoded)
    ensures r.fileType.None? ==> r == ClearedProof
  {
    match file
    case None => ClearedProof
    case Some(f) =>
      if !AllowedFileType(f.mimeType) then ClearedProof
      else
        match encoded
        case None => ClearedProof
        case Some(data) => ProofField(Some(data), Some(f.mimeType), Some(data))
  }

  /** The accepted file types are exactly the three image formats. */
  lemma AllowedTypesExactly(mimeType: string)
    ensures AllowedFileType(mimeType) <==> mimeType == "image/jpeg" || mimeType == "image/png" || mimeType == "image/webp"
  {
  }

  /** A cleared proof never passes the schema, so a rejected file blocks submission. */
  lemma ClearedProofFailsSchema(v: CheckoutValues, file: Option<SelectedFile>, encoded: Option<string>)
    requires HandleFileChange(file, encoded).fileType.None?
    ensures !SchemaValid(v.(paymentProof := HandleFileChange(file, encoded).paymentProof))
  {
  }

  // ---------------------------------------------------------------------------
  // The order payload

  datatype OrderLine = OrderLine(productId: int, quantity: int, itemNote: Option<string>)

  datatype OrderPayload = OrderPayload(
    customerName: string,
    customerPhone: string,
    customerEmail: Option<string>,
    orderDate: string,
    paymentMethod: string,
    notes: Option<string>,
    paymentProofBase64: Option<string>,
    gpsLink: Option<string>,
    latitude: Coordinate,
    longitude: Coordinate,
    locationDescription: Option<string>,
    lines: seq<OrderLine>)

  /** The account's name when signed in, the form's name otherwise. */
  function CustomerName(v: CheckoutValues, auth: Auth): string {
    if auth.isAuthenticated && auth.user.Some? then auth.user.value.name else v.customerName
  }

  function OrderLines(items: seq<Line>): (r: seq<OrderLine>)
    ensures |r| == |items|
    ensures forall k :: 0 <= k < |r| ==>
      r[k] == OrderLine(items[k].Id(), items[k].quantity, items[k].specialRequest)
  {
    seq(|items|, k requires 0 <= k < |items| =>
      OrderLine(items[k].Id(), items[k].quantity, items[k].specialRequest))
  }

  function OrderedUnits(lines: seq<OrderLine>): int {
    if |lines| == 0 then 0 else lines[0].quantity + OrderedUnits(lines[1..])
  }

  /**
   * The request body. `orderDate` is the submission time, which the model
   * takes as an input.
   */
  function BuildPayload(v: CheckoutValues, auth: Auth, items: seq<Line>, orderDate: string): (p: OrderPayload)
    ensures p.customerName == CustomerName(v, auth) && p.customerPhone == v.customerPhone
    ensures p.lines == OrderLines(items)
    ensures v.orderType == Pickup ==>
      p.gpsLink.None? && p.latitude == Null && p.longitude == Null && p.locationDescription.None?
    ensures v.orderType == Delivery ==>
      p.gpsLink == v.gpsLink && p.latitude == v.latitude && p.longitude == v.longitude
      && p.locationDescription == v.locationDescription
    ensures p.orderDate == orderDate && p.paymentMethod == v.paymentMethod
    ensures p.notes.Some? <==> Text.Truthy(v.notes)
    ensures p.notes.Some? ==> p.notes == v.notes
    ensures p.paymentProofBase64.Some? <==> Text.Truthy(v.paymentProof)
    ensures p.paymentProofBase64.Some? ==> p.paymentProofBase64 == v.paymentProof
    ensures auth.user.Some? && auth.user.value.email != "" ==> p.customerEmail == Some(auth.user.value.email)
    ensures auth.user.None? || auth.user.value.email == "" ==> p.customerEmail.None?
  {
    var isDelivery := v.orderType == Delivery;
    OrderPayload(
      CustomerName(v, auth),
      v.customerPhone,
      Text.OrNull(if auth.user.Some? then Some(auth.user.value.email) else None),
      orderDate,
      v.paymentMethod,
      Text.OrNull(v.notes),
      Text.OrNull(v.paymentProof),
      if isDelivery then v.gpsLink else None,
      if isDelivery then v.latitude else Null,
      if isDelivery then v.longitude else Null,
      if isDelivery then v.locationDescription else None,
      OrderLines(items))
  }

  lemma {:induction false} OrderedUnitsMatchCart(items: seq<Line>)
    ensures OrderedUnits(OrderLines(items)) == SumQuantities(items)
  {
    if |items| > 0 {
      assert OrderLines(items)[1..] == OrderLines(items[1..]);
      OrderedUnitsMatchCart(items[1..]);
    }
  }

  /**
   * The order carries the cart line for line: one order line per cart line,
   * in order, with the line's id, quantity and note; so the units ordered
   * are the cart's item total and distinct lines name distinct products.
   */
  lemma PayloadMatchesCart(v: CheckoutValues, auth: Auth, s: CartState, orderDate: string)
    requires TotalsConsistent(s)
    ensures var p := BuildPayload(v, auth, s.items, orderDate);
      && |p.lines| == |s.items|
      && (forall k :: 0 <= k < |p.lines| ==>
            p.lines[k].productId == s.items[k].Id()
            && p.lines[k].quantity == s.items[k].quantity
            && p.lines[k].itemNote == s.items[k].specialRequest)
      && OrderedUnits(p.lines) == s.totalItems
      && (UniqueIds(s.items) ==>
            forall i, j :: 0 <= i < j < |p.lines| ==> p.lines[i].productId != p.lines[j].productId)
  {
    OrderedUnitsMatchCart(s.items);
  }

  // ---------------------------------------------------------------------------
  // Submission

  /** What the backend did with the request: the call threw, or it answered. */
  datatype Response = Threw | Responded(ok: bool, success: bool, orderId: string)

  datatype SubmitStatus =
    | SchemaInvalid
    | EmptyCart
    | PaymentProofMissing
    | DeliveryFieldsMissing
    | Refused
    | NetworkError
    | Placed(orderId: string, customerName: string)

  /** The outcome, the request sent (if any), and the cart afterwards. */
  datatype Submission = Submission(status: SubmitStatus, request: Option<OrderPayload>, cart: CartState)

  /** `!value || value.trim().length === 0`. */
  predicate BlankProof(proof: Option<string>) {
    !Text.Truthy(proof) || |Text.Trim(proof.value)| == 0
  }

  /** The delivery fields `onSubmit` requires. */
  predicate DeliveryFieldsMissingIn(v: CheckoutValues) {
    || (v.locationDescription.None? || Text.Trim(v.locationDescription.value) == "")
    || !Text.Truthy(v.paymentProof)
    || !Text.Truthy(v.gpsLink)
    || v.latitude == Null
    || v.longitude == Null
  }

  /** The proof counts as blank exactly when it is absent, empty or all whitespace. */
  lemma BlankProofIff(proof: Option<string>)
    ensures BlankProof(proof) <==> proof.None? || Text.AllWhitespace(proof.value)
  {
  }

  /**
   * Past the proof check, a delivery order is held back for its fields
   * exactly when it is not `DeliveryReady`.
   */
  lemma DeliveryFieldsIff(v: CheckoutValues)
    requires !BlankProof(v.paymentProof)
    ensures DeliveryFieldsMissingIn(v) <==> !DeliveryReady(v)
  {
  }

  /** A delivery order's fields, stated without `trim`. */
  predicate DeliveryReady(v: CheckoutValues) {
    && v.paymentProof.Some? && !Text.AllWhitespace(v.paymentProof.value)
    && v.locationDescription.Some? && !Text.AllWhitespace(v.locationDescription.value)
    && Text.Truthy(v.gpsLink)
    && v.latitude != Null && v.longitude != Null
  }

  /**
   * `onSubmit`: refused with an empty cart; a delivery order is refused when
   * its proof is blank, then when its location description, proof or GPS
   * link is empty or a coordinate is `null`; otherwise the payload is sent,
   * and the cart is cleared only when the answer is ok with `success`.
   */
  function OnSubmit(v: CheckoutValues, auth: Auth, cart: CartState, orderDate: string, response: Response): (r: Submission)
    ensures |cart.items| == 0 ==> r == Submission(EmptyCart, None, cart)
    ensures r.request.Some? <==> |cart.items| > 0 && (v.orderType == Delivery ==> DeliveryReady(v))
    ensures r.request.Some? ==> r.request.value == BuildPayload(v, auth, cart.items, orderDate)
    ensures r.status.Placed? <==> r.request.Some? && response.Responded? && response.ok && response.success
    ensures r.status.Placed? ==> r.cart == Empty && r.status.customerName == CustomerName(v, auth)
    ensures !r.status.Placed? ==> r.cart == cart
  {
    if |cart.items| == 0 then Submission(EmptyCart, None, cart)
    else if v.orderType == Delivery && BlankProof(v.paymentProof) then Submission(PaymentProofMissing, None, cart)
    else if v.orderType == Delivery && DeliveryFieldsMissingIn(v) then Submission(DeliveryFieldsMissing, None, cart)
    else
      var payload := BuildPayload(v, auth, cart.items, orderDate);
      match response
      case Threw => Submission(NetworkError, Some(payload), cart)
      case Responded(ok, success, orderId) =>
        if !ok || !success then Submission(Refused, Some(payload), cart)
        else Submission(Placed(orderId, CustomerName(v, auth)), Some(payload), Reduce(cart, ClearCart))
  }

  /** The form's submit: the schema first, then `onSubmit`. */
  function Submit(v: CheckoutValues, auth: Auth, cart: CartState, orderDate: string, response: Response): (r: Submission)
    ensures !SchemaValid(v) ==> r == Submission(SchemaInvalid, None, cart)
    ensures SchemaValid(v) ==> r == OnSubmit(v, auth, cart, orderDate, response)
  {
    if !SchemaValid(v) then Submission(SchemaInvalid, None, cart)
    else OnSubmit(v, auth, cart, orderDate, response)
  }

  /**
   * Once the schema has passed, the proof is at least 10 characters, so a
   * delivery order is refused for its proof exactly when the proof is all
   * whitespace; and a pickup order with a non-empty cart is always sent.
   */
  lemma SubmitAfterSchema(v: CheckoutValues, auth: Auth, cart: CartState, orderDate: string, response: Response)
    requires SchemaValid(v) && |cart.items| > 0
    ensures var r := Submit(v, auth, cart, orderDate, response);
      && (v.orderType == Delivery ==>
            (r.status == PaymentProofMissing <==> Text.AllWhitespace(v.paymentProof.value)))
      && (v.orderType == Pickup ==> r.request.Some?)
  {
  }

  /**
   * Once the position is known, a delivery order with items is sent exactly
   * when its proof and its location description are not blank.
   */
  lemma LocatedDeliverySent(v: CheckoutValues, lat: real, lng: real, latText: string, lngText: string,
                            auth: Auth, cart: CartState, orderDate: string, response: Response)
    requires v.orderType == Delivery && |cart.items| > 0
    ensures var r := OnSubmit(OnLocated(v, lat, lng, latText, lngText), auth, cart, orderDate, response);
      r.request.Some? <==>
        && v.paymentProof.Some? && !Text.AllWhitespace(v.paymentProof.value)
        && v.locationDescription.Some? && !Text.AllWhitespace(v.locationDescription.value)
  {
  }
}
