/** The admin side of the bot: the guard on its entry points, the product dialog
    (a finite-state conversation the bot framework keeps per user, with a small
    dictionary of answers) and the catalog, statistics and order pages. Handlers
    that change the dialog or the store are methods on them, each specified by a
    function of the dialog and the store before the call; the properties of the
    dialog are lemmas about those functions. */
module Admin {
  import opened Wrappers
  import opened PyStr
  import opened Stock
  import opened Database
  import opened Stats
  import opened Markup
  import opened Callbacks
  import opened AdminKb

  /** `AdminStates`; `Idle` is the framework's "no state" after `state.clear()`. */
  datatype DialogState =
    | Idle
    | WaitingName | WaitingDescription | WaitingPrice | WaitingType | WaitingStock
    | WaitingNewPrice | WaitingNewDescription | WaitingAddStock

  /** One key of the dialog's data: `Absent` until `update_data` sets it; reading an
      absent key with `data[...]` raises KeyError. */
  datatype Slot<+T> = Absent | Present(value: T)

  /** The keys the handlers write. A name or description is the message's text,
      which is `None` for a message without text. */
  datatype DialogData = DialogData(
    name: Slot<Option<string>>, description: Slot<Option<string>>, price: Slot<real>,
    productType: Slot<Kind>, productId: Slot<int>)

  const Cleared := DialogData(Absent, Absent, Absent, Absent, Absent)

  datatype Session = Session(state: DialogState, data: DialogData)

  /** The session after `state.clear()`. */
  const Closed := Session(Idle, Cleared)

  /** The per-user dialog the framework stores. */
  class Dialog {
    var state: DialogState
    var data: DialogData

    constructor ()
      ensures state == Idle && data == Cleared
    {
      state, data := Idle, Cleared;
    }
  }

  /** An incoming message: its text, if any, and the file id of an attached
      document, if any. */
  datatype Message = Message(text: Option<string>, document: Option<string>)

  /** `is_admin`: the one configured id. */
  predicate IsAdmin(userId: int, adminId: int) {
    userId == adminId
  }

  const SkipWord: string := "пропустить"

  /** `message.text and message.text.lower() == "пропустить"`. */
  predicate IsSkip(text: Option<string>) {
    text.Some? && Lower(text.value) == SkipWord
  }

  /** What a handler answers. */
  datatype Reply =
    | Denied                                        // the guard refused the caller
    | Crashed                                       // the handler raised; it wrote nothing
    | Prompt                                        // asks for the next answer
    | TypeChoice(keyboard: Keyboard)                // the two product types
    | Invalid                                       // the answer was refused; ask again
    | NotFound                                      // "Товар не найден!" alert
    | Menu(keyboard: Keyboard)
    | Products(keyboard: Keyboard)
    | Detail(product: Product, count: nat, keyboard: Keyboard)
    | ConfirmDelete(product: Product, keyboard: Keyboard)
    | ProductAdded(id: int, count: nat, keyboard: Keyboard)
    | StockAdded(count: nat, keyboard: Keyboard)
    | Done(keyboard: Keyboard)                      // price, description, file saved; product deleted
    | ProductMissing(keyboard: Keyboard)            // "❌ Товар не найден!" at the restock step
    | FileExpected(keyboard: Keyboard)              // "❌ Отправьте файл!"
    | StatsPage(stats: OrderStats, keyboard: Keyboard)
    | OrdersPage(recent: seq<Order>, keyboard: Keyboard)

  /** A handler that only touches the dialog. */
  datatype Step = Step(reply: Reply, session: Session)

  /** A handler that touches the dialog and the products table. */
  datatype Turn = Turn(reply: Reply, session: Session, products: seq<Product>, nextProductId: int)

  /** Every product id is below the next one AUTOINCREMENT hands out. */
  predicate IdsBelow(products: seq<Product>, nextProductId: int) {
    forall i :: 0 <= i < |products| ==> products[i].id < nextProductId
  }

  // ---------------------------------------------------------------------------
  // Menu and guard

  /** `/admin` and the `admin_menu` button. */
  function MenuPage(userId: int, adminId: int): Reply {
    if IsAdmin(userId, adminId) then Menu(AdminMenuKb()) else Denied
  }

  // ---------------------------------------------------------------------------
  // Adding a product: name, description, price, type, stock

  /** `admin_add_product`: asks for the name. The data of an earlier, unfinished
      dialog is kept. */
  function StartAdding(s: Session, userId: int, adminId: int): Step {
    if !IsAdmin(userId, adminId) then Step(Denied, s)
    else Step(Prompt, Session(WaitingName, s.data))
  }

  function TakeName(s: Session, msg: Message): Step {
    Step(Prompt, Session(WaitingDescription, s.data.(name := Present(msg.text))))
  }

  function TakeDescription(s: Session, msg: Message): Step {
    Step(Prompt, Session(WaitingPrice, s.data.(description := Present(msg.text))))
  }

  /** `admin_product_price`; `price` is what `float(message.text)` gives, `None`
      where it raises ValueError. `float(None)` raises TypeError, which the handler
      does not catch. */
  function TakePrice(s: Session, msg: Message, price: Option<real>): Step {
    if msg.text.None? then Step(Crashed, s)
    else if price.None? then Step(Invalid, s)
    else Step(TypeChoice(ProductTypeKb()), Session(WaitingType, s.data.(price := Present(price.value))))
  }

  /** `product_type_text` and `product_type_file`: no guard and no state filter. */
  function ChooseType(s: Session, kind: Kind): Step {
    Step(Prompt, Session(WaitingStock, s.data.(productType := Present(kind))))
  }

  /** `data.get('product_type', 'text')`. */
  function KindOf(d: DialogData): Kind {
    if d.productType.Present? then d.productType.value else Text
  }

  /** The stock the stock step stores, `None` when it refuses the message: a file
      product takes the document's file id or, for the skip word, nothing; a text
      product takes nothing for the skip word and the text otherwise (a message
      without text stores NULL, which reads as no stock). */
  function StockFrom(kind: Kind, msg: Message): Option<string> {
    match kind
    case File =>
      if msg.document.Some? then Some(msg.document.value)
      else if IsSkip(msg.text) then Some("")
      else None
    case Text =>
      if IsSkip(msg.text) then Some("") else Some(msg.text.GetOr(""))
  }

  /** `admin_product_stock`: reading a missing name, description or price raises
      KeyError, and a `None` name breaks the NOT NULL constraint; otherwise one
      product is inserted and the dialog is cleared. */
  function TakeStock(s: Session, products: seq<Product>, nextProductId: int, msg: Message): Turn {
    var d := s.data;
    var kind := KindOf(d);
    match StockFrom(kind, msg)
    case None => Turn(Invalid, s, products, nextProductId)
    case Some(stock) =>
      if d.name.Absent? || d.description.Absent? || d.price.Absent? || d.name.value.None? then
        Turn(Crashed, s, products, nextProductId)
      else
        var p := Product(nextProductId, d.name.value.value, d.description.value, d.price.value, stock, kind);
        Turn(ProductAdded(nextProductId, StockCount(kind, stock), AdminBackKb()), Closed,
             products + [p], nextProductId + 1)
  }

  // ---------------------------------------------------------------------------
  // Editing price and description

  /** `admin_edit_price_<id>` and `admin_edit_desc_<id>`: remember the id (piece 3)
      and wait for the new value in state `next`. */
  function StartEdit(s: Session, data: string, userId: int, adminId: int, next: DialogState): Step {
    if !IsAdmin(userId, adminId) then Step(Denied, s)
    else match DecodeId(data, 3)
      case None => Step(Crashed, s)
      case Some(id) => Step(Prompt, Session(next, s.data.(productId := Present(id))))
  }

  /** `admin_edit_price_finish`; `price` as in `TakePrice`. The update is made
      whether or not the product still exists. */
  function TakeNewPrice(s: Session, products: seq<Product>, nextProductId: int, msg: Message,
                        price: Option<real>): Turn {
    if msg.text.None? then Turn(Crashed, s, products, nextProductId)
    else if price.None? then Turn(Invalid, s, products, nextProductId)
    else if s.data.productId.Absent? then Turn(Crashed, s, products, nextProductId)
    else Turn(Done(AdminBackKb()), Closed,
              PatchRows(products, s.data.productId.value, PricePatch(price.value)), nextProductId)
  }

  /** `admin_edit_desc_finish`: a message without text sets nothing. */
  function TakeNewDescription(s: Session, products: seq<Product>, nextProductId: int, msg: Message): Turn {
    if s.data.productId.Absent? then Turn(Crashed, s, products, nextProductId)
    else Turn(Done(AdminBackKb()), Closed,
              PatchRows(products, s.data.productId.value, DescriptionPatch(msg.text)), nextProductId)
  }

  // ---------------------------------------------------------------------------
  // Restocking

  /** `admin_add_stock_<id>`: remember the id (piece 3) of an existing product. */
  function StartRestock(s: Session, products: seq<Product>, data: string, userId: int, adminId: int): Step {
    if !IsAdmin(userId, adminId) then Step(Denied, s)
    else match DecodeId(data, 3)
      case None => Step(Crashed, s)
      case Some(id) =>
        if FindProduct(products, id).None? then Step(NotFound, s)
        else Step(Prompt, Session(WaitingAddStock, s.data.(productId := Present(id))))
  }

  /** `admin_add_stock_finish`: a file product's stock is replaced by a sent
      document; a text product's stock is extended by the message's lines
      (`old + "\n" + text`). A text product and a message without text raise
      TypeError or AttributeError before anything is written. */
  function TakeRestock(s: Session, products: seq<Product>, nextProductId: int, msg: Message): Turn {
    if s.data.productId.Absent? then Turn(Crashed, s, products, nextProductId)
    else
      var id := s.data.productId.value;
      match FindProduct(products, id)
      case None => Turn(ProductMissing(AdminBackKb()), Closed, products, nextProductId)
      case Some(p) =>
        match p.kind
        case File =>
          if msg.document.Some? then
            Turn(Done(AdminBackKb()), Closed, PatchRows(products, id, StockPatch(msg.document.value)), nextProductId)
          else Turn(FileExpected(AdminBackKb()), Closed, products, nextProductId)
        case Text =>
          if msg.text.None? then Turn(Crashed, s, products, nextProductId)
          else
            var stock := Restock(p.stock, msg.text.value);
            Turn(StockAdded(|Split(stock, NL)|, AdminBackKb()), Closed,
                 PatchRows(products, id, StockPatch(stock)), nextProductId)
  }

  // ---------------------------------------------------------------------------
  // Product pages and deletion

  /** `admin_product_<id>` (piece 2): the product, its displayed count and the
      action buttons. */
  function ProductDetail(products: seq<Product>, data: string, userId: int, adminId: int): Reply {
    if !IsAdmin(userId, adminId) then Denied
    else match DecodeId(data, 2)
      case None => Crashed
      case Some(id) =>
        match FindProduct(products, id)
        case None => NotFound
        case Some(p) => Detail(p, StockCount(p.kind, p.stock), AdminProductActionsKb(id))
  }

  /** `admin_delete_<id>` (piece 2): a missing product is subscripted as `None`
      and the handler raises. */
  function DeleteConfirmation(products: seq<Product>, data: string, userId: int, adminId: int): Reply {
    if !IsAdmin(userId, adminId) then Denied
    else match DecodeId(data, 2)
      case None => Crashed
      case Some(id) =>
        match FindProduct(products, id)
        case None => Crashed
        case Some(p) => ConfirmDelete(p, AdminConfirmDeleteKb(id))
  }

  datatype Deletion = Deletion(reply: Reply, products: seq<Product>)

  /** `admin_confirm_delete_<id>` (piece 3). */
  function DeleteStep(products: seq<Product>, data: string, userId: int, adminId: int): Deletion {
    if !IsAdmin(userId, adminId) then Deletion(Denied, products)
    else match DecodeId(data, 3)
      case None => Deletion(Crashed, products)
      case Some(id) => Deletion(Done(AdminBackKb()), RemoveProduct(products, id))
  }

  // ---------------------------------------------------------------------------
  // Reports

  function StatsReply(orders: seq<Order>, userId: int, adminId: int): Reply {
    if IsAdmin(userId, adminId) then StatsPage(OrdersStats(orders), AdminBackKb()) else Denied
  }

  const RecentLimit: nat := 10

  /** `get_all_orders()[:10]`: the newest orders first. */
  function Recent(orders: seq<Order>): seq<Order> {
    NewestFirst(orders)[..Min(RecentLimit, |orders|)]
  }

  /** `admin_orders`: the recent orders, an empty page when there are none. */
  function OrdersReply(orders: seq<Order>, userId: int, adminId: int): Reply {
    if IsAdmin(userId, adminId) then OrdersPage(Recent(orders), AdminBackKb()) else Denied
  }

  // ---------------------------------------------------------------------------
  // Lemmas

  /** The guard: a caller other than the admin is refused at every guarded entry
      point, and nothing is written or moved on. */
  lemma GuardDenies(s: Session, products: seq<Product>, orders: seq<Order>, data: string,
                    next: DialogState, userId: int, adminId: int)
    requires !IsAdmin(userId, adminId)
    ensures MenuPage(userId, adminId) == Denied
    ensures StartAdding(s, userId, adminId) == Step(Denied, s)
    ensures StartEdit(s, data, userId, adminId, next) == Step(Denied, s)
    ensures StartRestock(s, products, data, userId, adminId) == Step(Denied, s)
    ensures ProductDetail(products, data, userId, adminId) == Denied
    ensures DeleteConfirmation(products, data, userId, adminId) == Denied
    ensures DeleteStep(products, data, userId, adminId) == Deletion(Denied, products)
    ensures StatsReply(orders, userId, adminId) == Denied
    ensures OrdersReply(orders, userId, adminId) == Denied
  {
  }

  /** ... and the admin is never refused. */
  lemma GuardAdmits(s: Session, products: seq<Product>, orders: seq<Order>, data: string,
                    next: DialogState, userId: int, adminId: int)
    requires IsAdmin(userId, adminId)
    ensures MenuPage(userId, adminId) == Menu(AdminMenuKb())
    ensures StartAdding(s, userId, adminId).reply != Denied
    ensures StartEdit(s, data, userId, adminId, next).reply != Denied
    ensures StartRestock(s, products, data, userId, adminId).reply != Denied
    ensures ProductDetail(products, data, userId, adminId) != Denied
    ensures DeleteConfirmation(products, data, userId, adminId) != Denied
    ensures DeleteStep(products, data, userId, adminId).reply != Denied
    ensures StatsReply(orders, userId, adminId) == StatsPage(OrdersStats(orders), AdminBackKb())
    ensures OrdersReply(orders, userId, adminId) == OrdersPage(Recent(orders), AdminBackKb())
  {
  }

  /** The whole add dialog, run in order from any session: the states advance
      name, description, price, type, stock, and the last step inserts exactly
      the product the answers describe, under the next id, and clears the dialog. */
  lemma AddDialogAddsProduct(s: Session, products: seq<Product>, nextProductId: int,
                             userId: int, adminId: int, name: Message, description: Message,
                             priceText: Message, price: real, kind: Kind, stock: Message)
    requires IsAdmin(userId, adminId)
    requires name.text.Some? && priceText.text.Some?
    requires StockFrom(kind, stock).Some?
    ensures var s1 := StartAdding(s, userId, adminId).session;
            var s2 := TakeName(s1, name).session;
            var s3 := TakeDescription(s2, description).session;
            var p4 := TakePrice(s3, priceText, Some(price));
            var s5 := ChooseType(p4.session, kind).session;
            var t := TakeStock(s5, products, nextProductId, stock);
            var units := StockFrom(kind, stock).value;
            && s1.state == WaitingName && s2.state == WaitingDescription && s3.state == WaitingPrice
            && p4 == Step(TypeChoice(ProductTypeKb()), p4.session) && p4.session.state == WaitingType
            && s5.state == WaitingStock
            && t.reply == ProductAdded(nextProductId, StockCount(kind, units), AdminBackKb())
            && t.products == products + [Product(nextProductId, name.text.value, description.text, price, units, kind)]
            && t.nextProductId == nextProductId + 1
            && t.session == Closed
  {
  }

  /** A price `float()` refuses keeps the dialog where it was, with no price
      stored; an accepted one is stored and moves on to the type step. */
  lemma PriceStepOutcomes(s: Session, msg: Message, price: Option<real>)
    requires msg.text.Some?
    ensures price.None? <==> TakePrice(s, msg, price) == Step(Invalid, s)
    ensures price.Some? ==> TakePrice(s, msg, price).session.state == WaitingType
    ensures price.Some? ==> TakePrice(s, msg, price).session.data.price == Present(price.value)
  {
  }

  /** What the stock step stores: the skip word (in any letter case the lowering
      folds) always means an empty stock unless a file product was sent a
      document, and only a file product can refuse a message. */
  lemma StockChoice(kind: Kind, msg: Message)
    ensures StockFrom(kind, msg).None? <==> kind == File && msg.document.None? && !IsSkip(msg.text)
    ensures IsSkip(msg.text) && (kind == Text || msg.document.None?) ==> StockFrom(kind, msg) == Some("")
    ensures kind == File && msg.document.Some? ==> StockFrom(kind, msg) == msg.document
    ensures kind == Text && msg.text.Some? && !IsSkip(msg.text) ==> StockFrom(kind, msg) == msg.text
  {
  }

  /** The stock step either refuses the message (and keeps the dialog), crashes
      (and writes nothing), or inserts one product, which then reads back under
      the id it reports with the count it reports, and clears the dialog. */
  lemma StockStepAddsOnce(s: Session, products: seq<Product>, nextProductId: int, msg: Message)
    requires ProductIdsIncreasing(products) && IdsBelow(products, nextProductId)
    ensures var t := TakeStock(s, products, nextProductId, msg);
            t.reply.ProductAdded? || t.reply == Invalid || t.reply == Crashed
    ensures var t := TakeStock(s, products, nextProductId, msg);
            t.reply == Invalid <==> StockFrom(KindOf(s.data), msg).None?
    ensures var t := TakeStock(s, products, nextProductId, msg);
            !t.reply.ProductAdded? ==> t.session == s && t.products == products && t.nextProductId == nextProductId
    ensures var t := TakeStock(s, products, nextProductId, msg);
            t.reply.ProductAdded? ==>
              && |t.products| == |products| + 1 && t.products[..|products|] == products
              && t.reply.id == nextProductId && t.nextProductId == nextProductId + 1
              && ProductIdsIncreasing(t.products) && IdsBelow(t.products, t.nextProductId)
              && FindProduct(t.products, t.reply.id) == Some(t.products[|products|])
              && t.products[|products|].kind == KindOf(s.data)
              && t.reply.count == StockCount(t.products[|products|].kind, t.products[|products|].stock)
              && t.session == Closed
  {
    var t := TakeStock(s, products, nextProductId, msg);
    if t.reply.ProductAdded? {
      assert t.products[..|products|] == products;
      FindProductAt(t.products, |products|);
    }
  }

  /** A price edit: a refused price changes nothing; an accepted one changes the
      price of that one product (if it still exists) and nothing else, and clears
      the dialog. */
  lemma NewPriceOutcomes(s: Session, products: seq<Product>, nextProductId: int, msg: Message,
                         price: Option<real>)
    requires ProductIdsIncreasing(products)
    requires msg.text.Some? && s.data.productId.Present?
    ensures var t := TakeNewPrice(s, products, nextProductId, msg, price);
            price.None? <==> t == Turn(Invalid, s, products, nextProductId)
    ensures var t := TakeNewPrice(s, products, nextProductId, msg, price);
            var id := s.data.productId.value;
            price.Some? ==>
              && t.reply == Done(AdminBackKb()) && t.session == Closed
              && |t.products| == |products| && ProductIdsIncreasing(t.products)
              && (forall i :: 0 <= i < |products| && products[i].id != id ==> t.products[i] == products[i])
              && (FindProduct(products, id).None? ==> t.products == products)
              && (FindProduct(products, id).Some? ==>
                    FindProduct(t.products, id) == Some(FindProduct(products, id).value.(price := price.value)))
  {
    var id := s.data.productId.value;
    if price.Some? {
      if FindProduct(products, id).None? {
        PatchMissing(products, id, PricePatch(price.value));
      } else {
        FindProductPatched(products, id, PricePatch(price.value));
      }
      SameProductIds(products, PatchRows(products, id, PricePatch(price.value)));
    }
  }

  /** A description edit changes the description of that one product only; a
      message without text changes nothing in the store but still clears the
      dialog. */
  lemma NewDescriptionOutcomes(s: Session, products: seq<Product>, nextProductId: int, msg: Message)
    requires ProductIdsIncreasing(products) && s.data.productId.Present?
    ensures var t := TakeNewDescription(s, products, nextProductId, msg);
            var id := s.data.productId.value;
            && t.reply == Done(AdminBackKb()) && t.session == Closed
            && (msg.text.None? || FindProduct(products, id).None? ==> t.products == products)
            && (msg.text.Some? && FindProduct(products, id).Some? ==>
                  FindProduct(t.products, id) == Some(FindProduct(products, id).value.(description := msg.text)))
            && forall i :: 0 <= i < |products| && products[i].id != id ==> t.products[i] == products[i]
  {
    var id := s.data.productId.value;
    if msg.text.None? {
      assert DescriptionPatch(msg.text) == NoChange;
      PatchNothing(products, id);
    } else if FindProduct(products, id).None? {
      PatchMissing(products, id, DescriptionPatch(msg.text));
    } else {
      FindProductPatched(products, id, DescriptionPatch(msg.text));
    }
  }

  /** A text restock appends the message's lines after the current ones; the count
      shown is the current count plus the new pieces, and equals the displayed
      count of the new stock whenever the message is not empty. Nothing but that
      product's stock changes, and the dialog is cleared. */
  lemma TextRestock(s: Session, products: seq<Product>, nextProductId: int, msg: Message)
    requires ProductIdsIncreasing(products) && s.data.productId.Present?
    requires FindProduct(products, s.data.productId.value).Some?
    requires FindProduct(products, s.data.productId.value).value.kind == Text
    requires msg.text.Some?
    ensures var p := FindProduct(products, s.data.productId.value).value;
            var t := TakeRestock(s, products, nextProductId, msg);
            var stock := Restock(p.stock, msg.text.value);
            && FindProduct(t.products, p.id) == Some(p.(stock := stock))
            && Split(stock, NL) == (if p.stock == [] then [] else Split(p.stock, NL)) + Split(msg.text.value, NL)
            && t.reply.StockAdded? && t.reply.keyboard == AdminBackKb()
            && t.reply.count == StockCount(Text, p.stock) + |Split(msg.text.value, NL)|
            && (msg.text.value != [] ==> t.reply.count == StockCount(Text, stock))
            && t.session == Closed && ProductIdsIncreasing(t.products)
  {
    var id := s.data.productId.value;
    var p := FindProduct(products, id).value;
    var stock := Restock(p.stock, msg.text.value);
    TextRestockTurn(s, products, nextProductId, msg);
    var t := TakeRestock(s, products, nextProductId, msg);
    assert t.reply.count == |Split(stock, NL)|;
    RestockCount(p.stock, msg.text.value);
    FindProductPatched(products, id, StockPatch(stock));
  }

  lemma TextRestockTurn(s: Session, products: seq<Product>, nextProductId: int, msg: Message)
    requires s.data.productId.Present?
    requires FindProduct(products, s.data.productId.value).Some?
    requires FindProduct(products, s.data.productId.value).value.kind == Text
    requires msg.text.Some?
    ensures var id := s.data.productId.value;
            var stock := Restock(FindProduct(products, id).value.stock, msg.text.value);
            TakeRestock(s, products, nextProductId, msg)
              == Turn(StockAdded(|Split(stock, NL)|, AdminBackKb()), Closed, PatchRows(products, id, StockPatch(stock)), nextProductId)
  {
  }

  lemma FileRestockTurn(s: Session, products: seq<Product>, nextProductId: int, msg: Message)
    requires s.data.productId.Present?
    requires FindProduct(products, s.data.productId.value).Some?
    requires FindProduct(products, s.data.productId.value).value.kind == File
    ensures var id := s.data.productId.value;
            TakeRestock(s, products, nextProductId, msg)
              == if msg.document.Some?
                 then Turn(Done(AdminBackKb()), Closed, PatchRows(products, id, StockPatch(msg.document.value)), nextProductId)
                 else Turn(FileExpected(AdminBackKb()), Closed, products, nextProductId)
  {
  }

  /** The count a text restock reports. */
  lemma RestockCount(current: string, text: string)
    ensures Split(Restock(current, text), NL) == (if current == [] then [] else Split(current, NL)) + Split(text, NL)
    ensures |Split(Restock(current, text), NL)| == StockCount(Text, current) + |Split(text, NL)|
    ensures text != [] ==> |Split(Restock(current, text), NL)| == StockCount(Text, Restock(current, text))
  {
    RestockLines(current, text);
    if text != [] {
      assert Restock(current, text) != [];
    }
  }

  /** A file restock replaces the stock with a sent document and otherwise leaves
      the store alone; either way the dialog is cleared. */
  lemma FileRestock(s: Session, products: seq<Product>, nextProductId: int, msg: Message)
    requires ProductIdsIncreasing(products) && s.data.productId.Present?
    requires FindProduct(products, s.data.productId.value).Some?
    requires FindProduct(products, s.data.productId.value).value.kind == File
    ensures var p := FindProduct(products, s.data.productId.value).value;
            var t := TakeRestock(s, products, nextProductId, msg);
            && t.session == Closed
            && (msg.document.Some? ==>
                  t.reply == Done(AdminBackKb()) && FindProduct(t.products, p.id) == Some(p.(stock := msg.document.value)))
            && (msg.document.None? ==> t == Turn(FileExpected(AdminBackKb()), Closed, products, nextProductId))
  {
    var id := s.data.productId.value;
    if msg.document.Some? {
      FindProductPatched(products, id, StockPatch(msg.document.value));
    }
  }

  /** The buttons of a product's page lead back to that product: each edit and
      restock button starts its step for the product's id, and the delete button
      asks to confirm deleting that product. */
  lemma DetailButtonsOpenSteps(s: Session, products: seq<Product>, i: int, userId: int, adminId: int)
    requires ProductIdsIncreasing(products) && 0 <= i < |products| && IsAdmin(userId, adminId)
    ensures var p := products[i];
            var r := ProductDetail(products, AdminProductData(p.id), userId, adminId);
            && r == Detail(p, StockCount(p.kind, p.stock), AdminProductActionsKb(p.id))
            && StartEdit(s, r.keyboard[0][0].action.data, userId, adminId, WaitingNewPrice)
                 == Step(Prompt, Session(WaitingNewPrice, s.data.(productId := Present(p.id))))
            && StartEdit(s, r.keyboard[1][0].action.data, userId, adminId, WaitingNewDescription)
                 == Step(Prompt, Session(WaitingNewDescription, s.data.(productId := Present(p.id))))
            && StartRestock(s, products, r.keyboard[2][0].action.data, userId, adminId)
                 == Step(Prompt, Session(WaitingAddStock, s.data.(productId := Present(p.id))))
            && DeleteConfirmation(products, r.keyboard[3][0].action.data, userId, adminId)
                 == ConfirmDelete(p, AdminConfirmDeleteKb(p.id))
  {
    FindProductAt(products, i);
    AdminProductDataRoundTrip(products[i].id);
  }

  /** Confirming a deletion removes exactly that product; cancelling shows its page
      again. */
  lemma ConfirmThenDelete(products: seq<Product>, i: int, userId: int, adminId: int)
    requires ProductIdsIncreasing(products) && 0 <= i < |products| && IsAdmin(userId, adminId)
    ensures var p := products[i];
            var kb := AdminConfirmDeleteKb(p.id);
            var d := DeleteStep(products, kb[0][0].action.data, userId, adminId);
            && DeleteConfirmation(products, AdminDeleteData(p.id), userId, adminId) == ConfirmDelete(p, kb)
            && d.reply == Done(AdminBackKb())
            && FindProduct(d.products, p.id).None?
            && (forall q :: q in products && q.id != p.id ==> q in d.products)
            && ProductDetail(products, kb[1][0].action.data, userId, adminId).Detail?
            && ProductDetail(products, kb[1][0].action.data, userId, adminId).product == p
  {
    FindProductAt(products, i);
    AdminDeleteDataRoundTrip(products[i].id);
  }

  /** The order page lists at most ten orders, newest first, and is empty exactly
      when there are no orders. */
  lemma RecentOrders(orders: seq<Order>)
    ensures |Recent(orders)| == Min(RecentLimit, |orders|)
    ensures Recent(orders) == [] <==> orders == []
    ensures forall i :: 0 <= i < |Recent(orders)| ==> Recent(orders)[i] == orders[|orders| - 1 - i]
  {
  }

  // ---------------------------------------------------------------------------
  // Message dispatch

  /** The message handlers of both routers. */
  datatype MessageHandler =
    | StartCommand                                  // the customer router's `/start`
    | AdminCommand
    | NameStep | DescriptionStep | PriceStep | StockStep
    | NewPriceStep | NewDescriptionStep | AddStockStep

  datatype MessageFilter = CommandIs(command: string) | InState(state: DialogState)

  datatype MessageRoute = MessageRoute(filter: MessageFilter, handler: MessageHandler)

  /** The command a text names: its first space-separated word, when that word
      starts with "/". */
  function CommandOf(text: string): (r: Option<string>)
    ensures r.Some? <==> |text| >= 1 && text[0] == '/'
    ensures r.Some? ==> StartsWith(text, "/" + r.value) && ' ' !in r.value
    ensures r.Some? ==> 1 + |r.value| == |text| || (1 + |r.value| < |text| && text[1 + |r.value|] == ' ')
  {
    var word := Split(text, " ")[0];
    SplitFirstPrefix(text, " ");
    SplitPiecesFree(text, ' ');
    SplitFirstEnds(text, ' ');
    assert |text| >= 1 && text[0] == '/' ==> |word| >= 1 && word[0] == '/';
    if |word| >= 1 && word[0] == '/' then
      assert word == "/" + word[1..];
      Some(word[1..])
    else None
  }

  predicate Accepts(f: MessageFilter, state: DialogState, msg: Message) {
    match f
    case CommandIs(c) => msg.text.Some? && CommandOf(msg.text.value) == Some(c)
    case InState(st) => state == st
  }

  /** The customer router's message handler, then the admin router's, each in the
      order it is registered. */
  function MessageRoutes(): seq<MessageRoute> {
    [ MessageRoute(CommandIs("start"), StartCommand),
      MessageRoute(CommandIs("admin"), AdminCommand) ]
    + StateRoutes()
  }

  /** The admin router's handlers of dialog answers. */
  function StateRoutes(): seq<MessageRoute> {
    [ MessageRoute(InState(WaitingName), NameStep),
      MessageRoute(InState(WaitingDescription), DescriptionStep),
      MessageRoute(InState(WaitingPrice), PriceStep),
      MessageRoute(InState(WaitingStock), StockStep),
      MessageRoute(InState(WaitingNewPrice), NewPriceStep),
      MessageRoute(InState(WaitingNewDescription), NewDescriptionStep),
      MessageRoute(InState(WaitingAddStock), AddStockStep) ]
  }

  /** The first route that accepts the message; `None` when the update is
      dropped. */
  function FirstMessageRoute(routes: seq<MessageRoute>, state: DialogState, msg: Message): (r: Option<MessageHandler>)
    ensures r.None? <==> forall i :: 0 <= i < |routes| ==> !Accepts(routes[i].filter, state, msg)
  {
    if routes == [] then None
    else if Accepts(routes[0].filter, state, msg) then Some(routes[0].handler)
    else
      var r := FirstMessageRoute(routes[1..], state, msg);
      assert forall i :: 1 <= i < |routes| ==> routes[i] == routes[1..][i - 1];
      r
  }

  /** The step a dialog state waits for; the type step waits for a button, not a
      message. */
  function StateStep(state: DialogState): Option<MessageHandler> {
    match state
    case Idle => None
    case WaitingName => Some(NameStep)
    case WaitingDescription => Some(DescriptionStep)
    case WaitingPrice => Some(PriceStep)
    case WaitingType => None
    case WaitingStock => Some(StockStep)
    case WaitingNewPrice => Some(NewPriceStep)
    case WaitingNewDescription => Some(NewDescriptionStep)
    case WaitingAddStock => Some(AddStockStep)
  }

  /** `/start` and `/admin` are answered in every dialog state (and leave the state
      as it is); any other message goes to the step the state waits for, and is
      dropped when the dialog waits for none. */
  lemma MessageDispatch(state: DialogState, msg: Message)
    ensures var c := if msg.text.Some? then CommandOf(msg.text.value) else None;
            FirstMessageRoute(MessageRoutes(), state, msg)
              == if c == Some("start") then Some(StartCommand)
                 else if c == Some("admin") then Some(AdminCommand)
                 else StateStep(state)
  {
    var routes := MessageRoutes();
    var c := if msg.text.Some? then CommandOf(msg.text.value) else None;
    assert "admin"[0] != "start"[0];
    if c != Some("start") {
      assert !Accepts(routes[0].filter, state, msg);
      assert FirstMessageRoute(routes, state, msg) == FirstMessageRoute(routes[1..], state, msg);
      if c != Some("admin") {
        assert !Accepts(routes[1].filter, state, msg);
        assert routes[1..][1..] == StateRoutes();
        StateRoutesStep(state, msg);
      }
    }
  }

  lemma StateRoutesStep(state: DialogState, msg: Message)
    ensures FirstMessageRoute(StateRoutes(), state, msg) == StateStep(state)
  {
    var r := StateRoutes();
    if StateStep(state).None? {
      assert forall i :: 0 <= i < |r| ==> !Accepts(r[i].filter, state, msg);
    } else {
      var i := match state
        case WaitingName => 0
        case WaitingDescription => 1
        case WaitingPrice => 2
        case WaitingStock => 3
        case WaitingNewPrice => 4
        case WaitingNewDescription => 5
        case _ => 6;
      FirstMessageRouteAt(r, state, msg, i);
    }
  }

  /** The route taken is the first one that accepts. */
  lemma {:induction false} FirstMessageRouteAt(routes: seq<MessageRoute>, state: DialogState, msg: Message, i: int)
    requires 0 <= i < |routes| && Accepts(routes[i].filter, state, msg)
    requires forall j :: 0 <= j < i ==> !Accepts(routes[j].filter, state, msg)
    ensures FirstMessageRoute(routes, state, msg) == Some(routes[i].handler)
    decreases i
  {
    if i > 0 {
      FirstMessageRouteAt(routes[1..], state, msg, i - 1);
    }
  }

  // ---------------------------------------------------------------------------
  // Handlers on the store and the dialog

  method CmdAdmin(userId: int, adminId: int) returns (reply: Reply)
    ensures reply == MenuPage(userId, adminId)
  {
    if !IsAdmin(userId, adminId) {
      return Denied;
    }
    return Menu(AdminMenuKb());
  }

  method AddProductStart(dialog: Dialog, userId: int, adminId: int) returns (reply: Reply)
    modifies dialog
    ensures Step(reply, Session(dialog.state, dialog.data))
      == StartAdding(Session(old(dialog.state), old(dialog.data)), userId, adminId)
  {
    if !IsAdmin(userId, adminId) {
      return Denied;
    }
    dialog.state := WaitingName;
    return Prompt;
  }

  method ProductName(dialog: Dialog, msg: Message) returns (reply: Reply)
    modifies dialog
    ensures Step(reply, Session(dialog.state, dialog.data)) == TakeName(Session(old(dialog.state), old(dialog.data)), msg)
  {
    dialog.data := dialog.data.(name := Present(msg.text));
    dialog.state := WaitingDescription;
    return Prompt;
  }

  method ProductDescription(dialog: Dialog, msg: Message) returns (reply: Reply)
    modifies dialog
    ensures Step(reply, Session(dialog.state, dialog.data))
      == TakeDescription(Session(old(dialog.state), old(dialog.data)), msg)
  {
    dialog.data := dialog.data.(description := Present(msg.text));
    dialog.state := WaitingPrice;
    return Prompt;
  }

  method ProductPrice(dialog: Dialog, msg: Message, price: Option<real>) returns (reply: Reply)
    modifies dialog
    ensures Step(reply, Session(dialog.state, dialog.data))
      == TakePrice(Session(old(dialog.state), old(dialog.data)), msg, price)
  {
    if msg.text.None? {
      return Crashed;
    }
    if price.None? {
      return Invalid;
    }
    dialog.data := dialog.data.(price := Present(price.value));
    dialog.state := WaitingType;
    return TypeChoice(ProductTypeKb());
  }

  method ProductType(dialog: Dialog, kind: Kind) returns (reply: Reply)
    modifies dialog
    ensures Step(reply, Session(dialog.state, dialog.data)) == ChooseType(Session(old(dialog.state), old(dialog.data)), kind)
  {
    dialog.data := dialog.data.(productType := Present(kind));
    dialog.state := WaitingStock;
    return Prompt;
  }

  method ProductStock(dialog: Dialog, db: Db, msg: Message) returns (reply: Reply)
    requires db.Valid()
    modifies dialog, db
    ensures db.Valid()
    ensures Turn(reply, Session(dialog.state, dialog.data), db.products, db.nextProductId)
      == TakeStock(Session(old(dialog.state), old(dialog.data)), old(db.products), old(db.nextProductId), msg)
    ensures db.orders == old(db.orders) && db.nextOrderId == old(db.nextOrderId) && db.users == old(db.users)
  {
    var d := dialog.data;
    var kind := KindOf(d);
    var stock := StockFrom(kind, msg);
    if stock.None? {
      return Invalid;
    }
    if d.name.Absent? || d.description.Absent? || d.price.Absent? || d.name.value.None? {
      return Crashed;
    }
    var id := db.AddProduct(d.name.value.value, d.description.value, d.price.value, stock.value, kind);
    reply := ProductAdded(id, StockCount(kind, stock.value), AdminBackKb());
    dialog.state, dialog.data := Idle, Cleared;
  }

  method EditPriceStart(dialog: Dialog, data: string, userId: int, adminId: int) returns (reply: Reply)
    modifies dialog
    ensures Step(reply, Session(dialog.state, dialog.data))
      == StartEdit(Session(old(dialog.state), old(dialog.data)), data, userId, adminId, WaitingNewPrice)
  {
    reply := EditStart(dialog, data, userId, adminId, WaitingNewPrice);
  }

  method EditDescStart(dialog: Dialog, data: string, userId: int, adminId: int) returns (reply: Reply)
    modifies dialog
    ensures Step(reply, Session(dialog.state, dialog.data))
      == StartEdit(Session(old(dialog.state), old(dialog.data)), data, userId, adminId, WaitingNewDescription)
  {
    reply := EditStart(dialog, data, userId, adminId, WaitingNewDescription);
  }

  method EditStart(dialog: Dialog, data: string, userId: int, adminId: int, next: DialogState) returns (reply: Reply)
    modifies dialog
    ensures Step(reply, Session(dialog.state, dialog.data))
      == StartEdit(Session(old(dialog.state), old(dialog.data)), data, userId, adminId, next)
  {
    if !IsAdmin(userId, adminId) {
      return Denied;
    }
    var id := DecodeId(data, 3);
    if id.None? {
      return Crashed;
    }
    dialog.data := dialog.data.(productId := Present(id.value));
    dialog.state := next;
    return Prompt;
  }

  method EditPriceFinish(dialog: Dialog, db: Db, msg: Message, price: Option<real>) returns (reply: Reply)
    requires db.Valid()
    modifies dialog, db
    ensures db.Valid()
    ensures Turn(reply, Session(dialog.state, dialog.data), db.products, db.nextProductId)
      == TakeNewPrice(Session(old(dialog.state), old(dialog.data)), old(db.products), old(db.nextProductId), msg, price)
    ensures db.orders == old(db.orders) && db.nextOrderId == old(db.nextOrderId) && db.users == old(db.users)
  {
    if msg.text.None? {
      return Crashed;
    }
    if price.None? {
      return Invalid;
    }
    if dialog.data.productId.Absent? {
      return Crashed;
    }
    db.UpdateProduct(dialog.data.productId.value, PricePatch(price.value));
    reply := Done(AdminBackKb());
    dialog.state, dialog.data := Idle, Cleared;
  }

  method EditDescFinish(dialog: Dialog, db: Db, msg: Message) returns (reply: Reply)
    requires db.Valid()
    modifies dialog, db
    ensures db.Valid()
    ensures Turn(reply, Session(dialog.state, dialog.data), db.products, db.nextProductId)
      == TakeNewDescription(Session(old(dialog.state), old(dialog.data)), old(db.products), old(db.nextProductId), msg)
    ensures db.orders == old(db.orders) && db.nextOrderId == old(db.nextOrderId) && db.users == old(db.users)
  {
    if dialog.data.productId.Absent? {
      return Crashed;
    }
    db.UpdateProduct(dialog.data.productId.value, DescriptionPatch(msg.text));
    reply := Done(AdminBackKb());
    dialog.state, dialog.data := Idle, Cleared;
  }

  method AddStockStart(dialog: Dialog, db: Db, data: string, userId: int, adminId: int) returns (reply: Reply)
    modifies dialog
    ensures Step(reply, Session(dialog.state, dialog.data))
      == StartRestock(Session(old(dialog.state), old(dialog.data)), db.products, data, userId, adminId)
  {
    if !IsAdmin(userId, adminId) {
      return Denied;
    }
    var id := DecodeId(data, 3);
    if id.None? {
      return Crashed;
    }
    if FindProduct(db.products, id.value).None? {
      return NotFound;
    }
    dialog.data := dialog.data.(productId := Present(id.value));
    dialog.state := WaitingAddStock;
    return Prompt;
  }

  method AddStockFinish(dialog: Dialog, db: Db, msg: Message) returns (reply: Reply)
    requires db.Valid()
    modifies dialog, db
    ensures db.Valid()
    ensures Turn(reply, Session(dialog.state, dialog.data), db.products, db.nextProductId)
      == TakeRestock(Session(old(dialog.state), old(dialog.data)), old(db.products), old(db.nextProductId), msg)
    ensures db.orders == old(db.orders) && db.nextOrderId == old(db.nextOrderId) && db.users == old(db.users)
  {
    if dialog.data.productId.Absent? {
      return Crashed;
    }
    ghost var s0, products0 := Session(dialog.state, dialog.data), db.products;
    var id := dialog.data.productId.value;
    var p := FindProduct(db.products, id);
    if p.None? {
      reply := ProductMissing(AdminBackKb());
    } else if p.value.kind == File {
      FileRestockTurn(s0, products0, db.nextProductId, msg);
      if msg.document.Some? {
        db.UpdateProduct(id, StockPatch(msg.document.value));
        reply := Done(AdminBackKb());
      } else {
        reply := FileExpected(AdminBackKb());
      }
    } else {
      if msg.text.None? {
        return Crashed;
      }
      var stock := Restock(p.value.stock, msg.text.value);
      TextRestockTurn(s0, products0, db.nextProductId, msg);
      db.UpdateProduct(id, StockPatch(stock));
      reply := StockAdded(|Split(stock, NL)|, AdminBackKb());
    }
    dialog.state, dialog.data := Idle, Cleared;
  }

  method DeleteFinish(db: Db, data: string, userId: int, adminId: int) returns (reply: Reply)
    requires db.Valid()
    modifies db
    ensures db.Valid()
    ensures Deletion(reply, db.products) == DeleteStep(old(db.products), data, userId, adminId)
    ensures db.nextProductId == old(db.nextProductId)
    ensures db.orders == old(db.orders) && db.nextOrderId == old(db.nextOrderId) && db.users == old(db.users)
  {
    if !IsAdmin(userId, adminId) {
      return Denied;
    }
    var id := DecodeId(data, 3);
    if id.None? {
      return Crashed;
    }
    db.DeleteProduct(id.value);
    return Done(AdminBackKb());
  }

  /** `admin_products`: the product list, or only the back button when there are
      no products; each row's button opens that product's page. */
  method ProductsList(db: Db, userId: int, adminId: int) returns (reply: Reply)
    requires db.Valid()
    ensures !IsAdmin(userId, adminId) <==> reply == Denied
    ensures IsAdmin(userId, adminId) && db.products == [] ==> reply == Products(AdminBackKb())
    ensures IsAdmin(userId, adminId) && db.products != [] ==>
      && reply.Products?
      && |reply.keyboard| == |db.products| + 1
      && (forall i :: 0 <= i < |db.products| ==> reply.keyboard[i] == [ProductButton(db.products[i])])
      && reply.keyboard[|db.products|] == [AdminMenuButton]
      && forall i :: 0 <= i < |db.products| ==>
           && reply.keyboard[i][0].action.Callback?
           && ProductDetail(db.products, reply.keyboard[i][0].action.data, userId, adminId)
                == Detail(db.products[i], StockCount(db.products[i].kind, db.products[i].stock),
                          AdminProductActionsKb(db.products[i].id))
  {
    if !IsAdmin(userId, adminId) {
      return Denied;
    }
    if db.products == [] {
      return Products(AdminBackKb());
    }
    var kb: Keyboard := AdminProductsKb(db.products);
    forall i | 0 <= i < |db.products|
      ensures ProductDetail(db.products, kb[i][0].action.data, userId, adminId)
        == Detail(db.products[i], StockCount(db.products[i].kind, db.products[i].stock),
                  AdminProductActionsKb(db.products[i].id))
    {
      FindProductAt(db.products, i);
    }
    return Products(kb);
  }
}
