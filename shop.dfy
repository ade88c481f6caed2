/** The customer's side of the bot: the start command, the catalog, the product
    page, the purchase and the payment check that delivers a unit. Each handler
    that touches the store is a method on it, specified by a function of the store
    before the call; the properties of the handlers are lemmas about those
    functions. */
module Shop {
  import opened Wrappers
  import opened PyStr
  import opened Stock
  import opened Database
  import opened Markup
  import opened Callbacks
  import opened UserKb

  /** What the gateway's `check_payment` reports about one payment. */
  datatype PaymentInfo = PaymentInfo(status: string, paid: bool)

  /** What the gateway's `create_payment` returns for a new payment. */
  datatype Created = Created(paymentId: string, confirmationUrl: string)

  /** `callback.from_user.username or "Unknown"`. */
  function OrderName(username: Option<string>): string {
    if username.Some? && username.value != [] then username.value else "Unknown"
  }

  // ---------------------------------------------------------------------------
  // The product page

  datatype Shown =
    | ShowCrashed          // the id piece is missing or not an integer: the handler raises
    | ShowNotFound         // "Товар не найден!"
    | Page(product: Product, count: nat, keyboard: Keyboard)

  /** `show_product`: the product with the id in the data, the unit count shown for
      it and the buy keyboard. */
  function ShowProduct(products: seq<Product>, data: string): Shown {
    var id := DecodeId(data, 1);
    if id.None? then ShowCrashed
    else match FindProduct(products, id.value)
      case None => ShowNotFound
      case Some(p) => Page(p, StockCount(p.kind, p.stock), ProductKb(id.value))
  }

  // ---------------------------------------------------------------------------
  // The purchase

  datatype BuyOutcome =
    | BuyCrashed                         // the id piece is missing or not an integer
    | BuyNotFound                        // "Товар не найден!"
    | SoldOut                            // "❌ Товар закончился!"
    | PaymentFailed                      // "Ошибка создания платежа: ..."
    | AwaitingPayment(keyboard: Keyboard)

  datatype Bought = Bought(outcome: BuyOutcome, orders: seq<Order>, nextOrderId: int)

  /** `buy_product`: checks the product and its count, asks the gateway for a
      payment, and records a pending order under the payment's id. Either failure
      of the gateway or of the insert is reported the same way. */
  function Buy(products: seq<Product>, orders: seq<Order>, nextOrderId: int, data: string,
               userId: int, username: Option<string>, created: Result<Created, string>): Bought
  {
    var id := DecodeId(data, 1);
    if id.None? then Bought(BuyCrashed, orders, nextOrderId)
    else match FindProduct(products, id.value)
      case None => Bought(BuyNotFound, orders, nextOrderId)
      case Some(p) =>
        if StockCount(p.kind, p.stock) == 0 then Bought(SoldOut, orders, nextOrderId)
        else if created.Failure? || HasPayment(orders, created.value.paymentId) then
          Bought(PaymentFailed, orders, nextOrderId)
        else
          var c := created.value;
          Bought(AwaitingPayment(PaymentKb(c.confirmationUrl, c.paymentId)),
                 orders + [Order(nextOrderId, userId, OrderName(username), id.value, p.name, p.price, c.paymentId, Pending)],
                 nextOrderId + 1)
  }

  // ---------------------------------------------------------------------------
  // The payment check

  datatype CheckOutcome =
    | CheckCrashed                       // no `check_payment_` marker: the handler raises
    | CheckFailed                        // the gateway call raised: "Ошибка проверки: ..."
    | OrderNotFound                      // "Заказ не найден!"
    | AlreadyDelivered                   // "✅ Товар уже был выдан!"
    | ProductGone                        // "❌ Товар не найден!"
    | UnitsExhausted                     // "... закончились! Свяжитесь с поддержкой."
    | Delivered(kind: Kind, item: string, keyboard: Keyboard)
    | SendFailed(item: string)           // the unit was claimed but the message failed
    | PaymentPending                     // "⏳ Платёж в обработке."
    | PaymentNotFound                    // "❌ Платёж не найден или отменён."

  datatype Settled = Settled(outcome: CheckOutcome, products: seq<Product>, orders: seq<Order>)

  predicate Succeeded(info: PaymentInfo) {
    info.status == "succeeded" && info.paid
  }

  /** Whether the check claimed a unit and marked the order paid. */
  predicate Claimed(outcome: CheckOutcome) {
    outcome.Delivered? || outcome.SendFailed?
  }

  /** `check_payment_status`: the gateway's report decides; a succeeded and paid
      payment whose order is still pending takes one unit from the product, marks
      the order paid and then sends the unit (`sendOk` says whether that message
      went through). */
  function Settle(products: seq<Product>, orders: seq<Order>, data: string,
                  info: Result<PaymentInfo, string>, sendOk: bool): Settled
  {
    var pid := DecodePaymentId(data);
    if pid.None? then Settled(CheckCrashed, products, orders)
    else if info.Failure? then Settled(CheckFailed, products, orders)
    else if Succeeded(info.value) then Deliver(products, orders, pid.value, sendOk)
    else if info.value.status == "pending" then Settled(PaymentPending, products, orders)
    else Settled(PaymentNotFound, products, orders)
  }

  /** The succeeded branch of the payment check. */
  function Deliver(products: seq<Product>, orders: seq<Order>, paymentId: string, sendOk: bool): Settled {
    match FindOrder(orders, paymentId)
    case None => Settled(OrderNotFound, products, orders)
    case Some(o) =>
      if o.status == Paid then Settled(AlreadyDelivered, products, orders)
      else match FindProduct(products, o.productId)
        case None => Settled(ProductGone, products, orders)
        case Some(p) =>
          match Claim(p.stock)
          case None => Settled(UnitsExhausted, products, orders)
          case Some(c) =>
            Settled(if sendOk then Delivered(p.kind, c.item, BackToMainKb()) else SendFailed(c.item),
                    PatchRows(products, o.productId, StockPatch(c.rest)),
                    SetStatus(orders, paymentId, Paid))
  }

  // ---------------------------------------------------------------------------
  // Properties of the payment check

  /** Only a claim changes the store: every other outcome leaves both tables as
      they were. A claim happens only on a succeeded and paid report for a pending
      order of an existing product with a unit left; it delivers that product's
      first unit, removes it from the stock (a text product's count drops by at
      least one) and marks that order, and no other, paid. */
  lemma SettleClaimsOneUnit(products: seq<Product>, orders: seq<Order>, data: string,
                            info: Result<PaymentInfo, string>, sendOk: bool)
    requires ProductIdsIncreasing(products) && PaymentIdsUnique(orders)
    ensures var r := Settle(products, orders, data, info, sendOk);
      !Claimed(r.outcome) ==> r.products == products && r.orders == orders
    ensures var r := Settle(products, orders, data, info, sendOk);
      Claimed(r.outcome) ==>
        && DecodePaymentId(data).Some? && info.Success? && Succeeded(info.value)
        && (r.outcome.Delivered? <==> sendOk)
        && ClaimedFrom(products, orders, DecodePaymentId(data).value, r)
  {
    var r := Settle(products, orders, data, info, sendOk);
    if Claimed(r.outcome) {
      DeliverFacts(products, orders, DecodePaymentId(data).value, sendOk);
    }
  }

  /** ... and conversely a succeeded and paid report for a pending order whose
      product still has a unit does claim that unit, for any pending order: it
      hands out the product's first unit and marks that order paid. */
  lemma PendingPaymentClaims(products: seq<Product>, orders: seq<Order>, data: string,
                             info: Result<PaymentInfo, string>, sendOk: bool)
    requires DecodePaymentId(data).Some? && info.Success? && Succeeded(info.value)
    requires var o := FindOrder(orders, DecodePaymentId(data).value);
      && o.Some? && o.value.status == Pending
      && FindProduct(products, o.value.productId).Some?
      && Claim(FindProduct(products, o.value.productId).value.stock).Some?
    ensures var r := Settle(products, orders, data, info, sendOk);
      var o := FindOrder(orders, DecodePaymentId(data).value).value;
      var p := FindProduct(products, o.productId).value;
      && Claimed(r.outcome)
      && r.outcome.item == Claim(p.stock).value.item
      && r.products == PatchRows(products, o.productId, StockPatch(Claim(p.stock).value.rest))
      && r.orders == SetStatus(orders, o.paymentId, Paid)
  {
  }

  /** The order behind the payment id was pending, its product had a unit, and the
      result is that unit, the product without it and the order paid. */
  ghost predicate ClaimedFrom(products: seq<Product>, orders: seq<Order>, paymentId: string, r: Settled)
    requires Claimed(r.outcome)
  {
    var o := FindOrder(orders, paymentId);
    && o.Some? && o.value.status == Pending
    && var p := FindProduct(products, o.value.productId);
    && p.Some? && Claim(p.value.stock).Some?
    && r.outcome.item == Claim(p.value.stock).value.item
    && OrderPaid(orders, r.orders, o.value)
    && UnitTaken(products, r.products, p.value, Claim(p.value.stock).value)
  }

  /** `after` is `before` with order `o`, and only it, marked paid. */
  ghost predicate OrderPaid(before: seq<Order>, after: seq<Order>, o: Order) {
    && |after| == |before|
    && FindOrder(after, o.paymentId) == Some(o.(status := Paid))
    && PaymentIdsUnique(after)
    && forall i :: 0 <= i < |before| && before[i].paymentId != o.paymentId ==> after[i] == before[i]
  }

  /** `after` is `before` with the claimed unit removed from product `p`, and no
      other product changed. */
  ghost predicate UnitTaken(before: seq<Product>, after: seq<Product>, p: Product, c: Claimed) {
    && |after| == |before|
    && FindProduct(after, p.id) == Some(p.(stock := c.rest))
    && ProductIdsIncreasing(after)
    && (forall i :: 0 <= i < |before| && before[i].id != p.id ==> after[i] == before[i])
    && (p.kind == Text ==> StockCount(Text, c.rest) + 1 <= StockCount(Text, p.stock))
  }

  lemma SetStatusPays(orders: seq<Order>, paymentId: string)
    requires PaymentIdsUnique(orders) && FindOrder(orders, paymentId).Some?
    ensures OrderPaid(orders, SetStatus(orders, paymentId, Paid), FindOrder(orders, paymentId).value)
  {
    FindOrderSetStatus(orders, paymentId, Paid);
  }

  lemma PatchTakesUnit(products: seq<Product>, id: int)
    requires ProductIdsIncreasing(products) && FindProduct(products, id).Some?
    requires Claim(FindProduct(products, id).value.stock).Some?
    ensures var p := FindProduct(products, id).value;
      var c := Claim(p.stock).value;
      UnitTaken(products, PatchRows(products, id, StockPatch(c.rest)), p, c)
  {
    var p := FindProduct(products, id).value;
    FindProductPatched(products, id, StockPatch(Claim(p.stock).value.rest));
    ClaimCount(p.stock);
  }

  lemma DeliverFacts(products: seq<Product>, orders: seq<Order>, paymentId: string, sendOk: bool)
    requires ProductIdsIncreasing(products) && PaymentIdsUnique(orders)
    requires Claimed(Deliver(products, orders, paymentId, sendOk).outcome)
    ensures ClaimedFrom(products, orders, paymentId, Deliver(products, orders, paymentId, sendOk))
  {
    var o := FindOrder(orders, paymentId).value;
    SetStatusPays(orders, paymentId);
    PatchTakesUnit(products, o.productId);
  }

  /** A check of a payment whose order is already paid changes nothing. */
  lemma SettleWhenPaid(products: seq<Product>, orders: seq<Order>, data: string,
                       info: Result<PaymentInfo, string>, sendOk: bool)
    requires DecodePaymentId(data).Some?
    requires var o := FindOrder(orders, DecodePaymentId(data).value); o.Some? && o.value.status == Paid
    ensures var r := Settle(products, orders, data, info, sendOk);
      && !Claimed(r.outcome) && r.products == products && r.orders == orders
      && (info.Success? && Succeeded(info.value) ==> r.outcome == AlreadyDelivered)
  {
  }

  /** A unit is handed out at most once per payment: once a check has claimed one,
      every later check of the same payment changes nothing, and one with a
      succeeded report answers that the unit was already delivered. This holds also
      when the first delivery message failed: that unit is gone. */
  lemma DeliverOnce(products: seq<Product>, orders: seq<Order>, data: string,
                    info1: Result<PaymentInfo, string>, send1: bool,
                    info2: Result<PaymentInfo, string>, send2: bool)
    requires ProductIdsIncreasing(products) && PaymentIdsUnique(orders)
    ensures var r1 := Settle(products, orders, data, info1, send1);
      var r2 := Settle(r1.products, r1.orders, data, info2, send2);
      Claimed(r1.outcome) ==>
        && !Claimed(r2.outcome) && r2.products == r1.products && r2.orders == r1.orders
        && (info2.Success? && Succeeded(info2.value) ==> r2.outcome == AlreadyDelivered)
  {
    var r1 := Settle(products, orders, data, info1, send1);
    if Claimed(r1.outcome) {
      SettleClaimsOneUnit(products, orders, data, info1, send1);
      SettleWhenPaid(r1.products, r1.orders, data, info2, send2);
    }
  }

  // ---------------------------------------------------------------------------
  // Properties of the purchase and the product page

  /** A purchase records exactly one pending order, under the gateway's payment id,
      for the product and price on the page, and offers the gateway's page and a
      check button for that payment; every other outcome records nothing. */
  lemma BuyRecordsOrder(products: seq<Product>, orders: seq<Order>, nextOrderId: int, data: string,
                        userId: int, username: Option<string>, created: Result<Created, string>)
    requires PaymentIdsUnique(orders)
    ensures var r := Buy(products, orders, nextOrderId, data, userId, username, created);
      !r.outcome.AwaitingPayment? ==> r.orders == orders && r.nextOrderId == nextOrderId
    ensures var r := Buy(products, orders, nextOrderId, data, userId, username, created);
      r.outcome.AwaitingPayment? ==>
        && DecodeId(data, 1).Some? && FindProduct(products, DecodeId(data, 1).value).Some?
        && created.Success? && !HasPayment(orders, created.value.paymentId)
        && var p := FindProduct(products, DecodeId(data, 1).value).value;
        && StockCount(p.kind, p.stock) > 0
        && r.nextOrderId == nextOrderId + 1
        && r.orders == orders + [Order(nextOrderId, userId, OrderName(username), p.id, p.name, p.price, created.value.paymentId, Pending)]
        && FindOrder(r.orders, created.value.paymentId) == Some(r.orders[|orders|])
        && PaymentIdsUnique(r.orders)
        && r.outcome.keyboard == PaymentKb(created.value.confirmationUrl, created.value.paymentId)
  {
    var r := Buy(products, orders, nextOrderId, data, userId, username, created);
    if r.outcome.AwaitingPayment? {
      FindOrderAppended(orders, r.orders[|orders|]);
    }
  }

  /** ... and conversely a purchase of an existing product with a unit left is
      accepted whenever the gateway creates a payment under a fresh id. */
  lemma BuyAccepts(products: seq<Product>, orders: seq<Order>, nextOrderId: int, data: string,
                   userId: int, username: Option<string>, created: Result<Created, string>)
    requires DecodeId(data, 1).Some? && FindProduct(products, DecodeId(data, 1).value).Some?
    requires var p := FindProduct(products, DecodeId(data, 1).value).value; StockCount(p.kind, p.stock) > 0
    requires created.Success? && !HasPayment(orders, created.value.paymentId)
    ensures Buy(products, orders, nextOrderId, data, userId, username, created).outcome.AwaitingPayment?
  {
  }

  /** The gateway is asked only after the product and its count were checked: a
      purchase refused for bad data, a missing product or no units left comes out
      the same whatever the gateway would have answered, and records nothing. */
  lemma RefusalSkipsGateway(products: seq<Product>, orders: seq<Order>, nextOrderId: int, data: string,
                            userId: int, username: Option<string>,
                            c1: Result<Created, string>, c2: Result<Created, string>)
    ensures var r := Buy(products, orders, nextOrderId, data, userId, username, c1);
      r.outcome.BuyCrashed? || r.outcome.BuyNotFound? || r.outcome.SoldOut? ==>
        && r == Buy(products, orders, nextOrderId, data, userId, username, c2)
        && r.orders == orders && r.nextOrderId == nextOrderId
    ensures var r := Buy(products, orders, nextOrderId, data, userId, username, c1);
      (r.outcome.BuyCrashed? <==> DecodeId(data, 1).None?)
      && (r.outcome.BuyNotFound? <==> DecodeId(data, 1).Some? && FindProduct(products, DecodeId(data, 1).value).None?)
      && (r.outcome.SoldOut? <==>
            DecodeId(data, 1).Some? && FindProduct(products, DecodeId(data, 1).value).Some?
            && var p := FindProduct(products, DecodeId(data, 1).value).value; StockCount(p.kind, p.stock) == 0)
  {
  }

  /** The product page and the purchase agree: the page's buy button carries the
      product's id, the page is missing exactly when the purchase finds no
      product, and the page shows no units exactly when the purchase is refused
      as sold out. */
  lemma PageAgreesWithBuy(products: seq<Product>, orders: seq<Order>, nextOrderId: int, id: int,
                          userId: int, username: Option<string>, created: Result<Created, string>)
    ensures var page := ShowProduct(products, ProductData(id));
      var b := Buy(products, orders, nextOrderId, BuyData(id), userId, username, created);
      && !page.ShowCrashed? && !b.outcome.BuyCrashed?
      && (page.ShowNotFound? <==> b.outcome.BuyNotFound?)
      && (page.Page? ==>
            && page.product.id == id
            && DecodeId(page.keyboard[0][0].action.data, 1) == Some(id)
            && (page.count == 0 <==> b.outcome.SoldOut?))
  {
    ProductDataRoundTrip(id);
    BuyDataRoundTrip(id);
  }

  /** A purchase followed by a succeeded payment delivers the product's first unit
      when its stock still holds one, and otherwise answers that the units ran out,
      although the purchase accepted it: the purchase counts the raw lines, the
      delivery the stripped ones. */
  lemma BuyThenPay(products: seq<Product>, orders: seq<Order>, nextOrderId: int, id: int,
                   userId: int, username: Option<string>, c: Created)
    requires ProductIdsIncreasing(products) && PaymentIdsUnique(orders)
    requires !Contains(c.paymentId, CheckPaymentPrefix)
    ensures var b := Buy(products, orders, nextOrderId, BuyData(id), userId, username, Success(c));
      b.outcome.AwaitingPayment? ==> FindProduct(products, id).Some?
    ensures var b := Buy(products, orders, nextOrderId, BuyData(id), userId, username, Success(c));
      b.outcome.AwaitingPayment? && FindProduct(products, id).Some? ==>
        var p := FindProduct(products, id).value;
        var s := Settle(products, b.orders, CheckPaymentData(c.paymentId), Success(PaymentInfo("succeeded", true)), true);
        s.outcome == if Claim(p.stock).Some? then Delivered(p.kind, Claim(p.stock).value.item, BackToMainKb())
                     else UnitsExhausted
  {
    var b := Buy(products, orders, nextOrderId, BuyData(id), userId, username, Success(c));
    if b.outcome.AwaitingPayment? {
      BuyDataRoundTrip(id);
      BuyRecordsOrder(products, orders, nextOrderId, BuyData(id), userId, username, Success(c));
      CheckPaymentRoundTrip(c.paymentId);
    }
  }

  // ---------------------------------------------------------------------------
  // The handlers on the store

  /** `/start`: remembers the user (the first record of a user is kept) and shows
      the main menu. */
  method Start(db: Db, userId: int, username: Option<string>, firstName: Option<string>, lastName: Option<string>)
    returns (kb: Keyboard)
    requires db.Valid()
    modifies db
    ensures db.Valid()
    ensures kb == MainMenuKb()
    ensures db.users == if userId in old(db.users) then old(db.users)
                        else old(db.users)[userId := User(username, firstName, lastName)]
    ensures db.products == old(db.products) && db.orders == old(db.orders)
    ensures db.nextProductId == old(db.nextProductId) && db.nextOrderId == old(db.nextOrderId)
  {
    db.AddUser(userId, username, firstName, lastName);
    kb := MainMenuKb();
  }

  /** `show_catalog`: an empty catalog offers only the way back; otherwise one row
      per product in id order, each leading to that product's page. */
  method ShowCatalog(db: Db) returns (kb: Keyboard)
    requires db.Valid()
    ensures db.products == [] ==> kb == BackToMainKb()
    ensures db.products != [] ==>
      && |kb| == |db.products| + 1
      && (forall i :: 0 <= i < |db.products| ==> kb[i] == [CatalogButton(db.products[i])])
      && kb[|db.products|] == [BackToMainButton]
      && forall i :: 0 <= i < |db.products| ==>
           && kb[i][0].action.Callback?
           && ShowProduct(db.products, kb[i][0].action.data).Page?
           && ShowProduct(db.products, kb[i][0].action.data).product == db.products[i]
  {
    if db.products == [] {
      return BackToMainKb();
    }
    kb := CatalogKb(db.products);
    forall i | 0 <= i < |db.products|
      ensures ShowProduct(db.products, kb[i][0].action.data).Page?
      ensures ShowProduct(db.products, kb[i][0].action.data).product == db.products[i]
    {
      FindProductAt(db.products, i);
    }
  }

  /** `buy_product` on the store: the new state and the answer are those of `Buy`;
      the products are never touched. */
  method BuyProduct(db: Db, data: string, userId: int, username: Option<string>, created: Result<Created, string>)
    returns (out: BuyOutcome)
    requires db.Valid()
    modifies db
    ensures db.Valid()
    ensures Bought(out, db.orders, db.nextOrderId)
      == Buy(old(db.products), old(db.orders), old(db.nextOrderId), data, userId, username, created)
    ensures db.products == old(db.products) && db.nextProductId == old(db.nextProductId) && db.users == old(db.users)
  {
    var id := DecodeId(data, 1);
    if id.None? {
      return BuyCrashed;
    }
    var p := FindProduct(db.products, id.value);
    if p.None? {
      return BuyNotFound;
    }
    if StockCount(p.value.kind, p.value.stock) == 0 {
      return SoldOut;
    }
    if created.Failure? {
      return PaymentFailed;
    }
    var c := created.value;
    var r := db.CreateOrder(userId, OrderName(username), id.value, p.value.name, p.value.price, c.paymentId);
    if r.Failure? {
      return PaymentFailed;
    }
    out := AwaitingPayment(PaymentKb(c.confirmationUrl, c.paymentId));
  }

  /** `check_payment_status` on the store: the new state and the answer are those
      of `Settle`. */
  method CheckPaymentStatus(db: Db, data: string, info: Result<PaymentInfo, string>, sendOk: bool)
    returns (out: CheckOutcome)
    requires db.Valid()
    modifies db
    ensures db.Valid()
    ensures Settled(out, db.products, db.orders) == Settle(old(db.products), old(db.orders), data, info, sendOk)
    ensures db.nextProductId == old(db.nextProductId) && db.nextOrderId == old(db.nextOrderId)
    ensures db.users == old(db.users)
  {
    var pid := DecodePaymentId(data);
    if pid.None? {
      return CheckCrashed;
    }
    if info.Failure? {
      return CheckFailed;
    }
    if !Succeeded(info.value) {
      if info.value.status == "pending" {
        return PaymentPending;
      }
      return PaymentNotFound;
    }
    var o := FindOrder(db.orders, pid.value);
    if o.None? {
      return OrderNotFound;
    }
    if o.value.status == Paid {
      return AlreadyDelivered;
    }
    var p := FindProduct(db.products, o.value.productId);
    if p.None? {
      return ProductGone;
    }
    var item := db.GetStockItem(o.value.productId);
    if item.None? {
      return UnitsExhausted;
    }
    db.UpdateOrderStatus(pid.value, Paid);
    if sendOk {
      out := Delivered(p.value.kind, item.value, BackToMainKb());
    } else {
      out := SendFailed(item.value);
    }
  }
}
