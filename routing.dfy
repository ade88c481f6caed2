/** Which handler a callback query reaches. Both routers are consulted in the order
    they were included (the user router first), and inside a router the handlers are
    tried in the order they were registered; the first whose filter accepts the
    callback data handles it. */
module Routing {
  import opened Wrappers
  import opened PyStr
  import opened Callbacks

  datatype Handler =
    | BackToMain | Catalog | ShowProduct | BuyProduct | CheckPayment | CancelPayment | Info | Support
    | AdminMenu | AdminClose | AddProductStart | TypeText | TypeFile | ProductsList | ProductDetail
    | EditPriceStart | EditDescStart | AddStockStart | DeleteConfirm | DeleteFinish | AdminStats | AdminOrders

  /** `F.data == s`, `F.data.startswith(p)`, and the corrected filter of the product
      page: starts with `p` but not with `q`. */
  datatype Filter = Exact(s: string) | Prefix(p: string) | PrefixBut(p: string, q: string)

  datatype Route = Route(filter: Filter, handler: Handler)

  predicate Matches(f: Filter, data: string) {
    match f
    case Exact(s) => data == s
    case Prefix(p) => StartsWith(data, p)
    case PrefixBut(p, q) => StartsWith(data, p) && !StartsWith(data, q)
  }

  const TypeStepPrefix: string := "product_type_"

  /** The user router's callback handlers, as registered. */
  function UserRoutes(showProduct: Filter): seq<Route> {
    UserMenuRoutes() + [Route(showProduct, ShowProduct)] + UserShopRoutes()
  }

  /** The two user handlers registered before the product page. */
  function UserMenuRoutes(): seq<Route> {
    [ Route(Exact("back_to_main"), BackToMain),
      Route(Exact("catalog"), Catalog) ]
  }

  /** The user handlers registered after the product page. */
  function UserShopRoutes(): seq<Route> {
    [ Route(Prefix("buy_"), BuyProduct),
      Route(Prefix("check_payment_"), CheckPayment),
      Route(Exact("cancel_payment"), CancelPayment),
      Route(Exact("info"), Info),
      Route(Exact("support"), Support) ]
  }

  /** The admin router's callback handlers, as registered. */
  function AdminRoutes(): seq<Route> {
    AdminMenuRoutes() + AdminProductRoutes() + AdminReportRoutes()
  }

  /** The menu, the add-product dialog's buttons and the product list. */
  function AdminMenuRoutes(): seq<Route> {
    [ Route(Exact("admin_menu"), AdminMenu),
      Route(Exact("admin_close"), AdminClose),
      Route(Exact("admin_add_product"), AddProductStart),
      Route(Exact("product_type_text"), TypeText),
      Route(Exact("product_type_file"), TypeFile),
      Route(Exact("admin_products"), ProductsList) ]
  }

  /** The handlers that read a product id from the data. */
  function AdminProductRoutes(): seq<Route> {
    [ Route(Prefix("admin_product_"), ProductDetail),
      Route(Prefix("admin_edit_price_"), EditPriceStart),
      Route(Prefix("admin_edit_desc_"), EditDescStart),
      Route(Prefix("admin_add_stock_"), AddStockStart),
      Route(Prefix("admin_delete_"), DeleteConfirm),
      Route(Prefix("admin_confirm_delete_"), DeleteFinish) ]
  }

  function AdminReportRoutes(): seq<Route> {
    [ Route(Exact("admin_stats"), AdminStats),
      Route(Exact("admin_orders"), AdminOrders) ]
  }

  /** Route `i` accepts the data and no earlier route does. */
  predicate FirstAt(routes: seq<Route>, data: string, i: int) {
    && 0 <= i < |routes| && Matches(routes[i].filter, data)
    && forall j :: 0 <= j < i ==> !Matches(routes[j].filter, data)
  }

  /** The first route whose filter accepts the data, or `None` when none does. */
  function FirstMatch(routes: seq<Route>, data: string): (r: Option<Handler>)
    ensures r.None? <==> forall i :: 0 <= i < |routes| ==> !Matches(routes[i].filter, data)
    ensures r.Some? ==> exists i :: FirstAt(routes, data, i) && routes[i].handler == r.value
  {
    if routes == [] then None
    else if Matches(routes[0].filter, data) then
      assert FirstAt(routes, data, 0);
      Some(routes[0].handler)
    else
      var r := FirstMatch(routes[1..], data);
      assert forall i :: 1 <= i < |routes| ==> routes[i] == routes[1..][i - 1];
      if r.Some? then
        var i :| FirstAt(routes[1..], data, i) && routes[1..][i].handler == r.value;
        assert FirstAt(routes, data, i + 1);
        r
      else r
  }

  /** At most one route is the first to accept the data, so it decides the result. */
  lemma FirstMatchAt(routes: seq<Route>, data: string, i: int)
    requires FirstAt(routes, data, i)
    ensures FirstMatch(routes, data) == Some(routes[i].handler)
  {
    var r := FirstMatch(routes, data);
    var k :| FirstAt(routes, data, k) && routes[k].handler == r.value;
    assert !(k < i) && !(i < k);
  }

  /** Data and a pattern that differ at some position inside both. */
  lemma DiffersAt(data: string, s: string, k: nat)
    requires k < |data| && k < |s| && data[k] != s[k]
    ensures data != s && !StartsWith(data, s)
  {
    assert |s| <= |data| ==> data[..|s|][k] == data[k];
  }

  /** The dispatcher with two routers included in order: the second is consulted
      only when no handler of the first accepts the data. */
  function Dispatcher(first: seq<Route>, second: seq<Route>, data: string): (r: Option<Handler>)
    ensures r == FirstMatch(first + second, data)
  {
    FirstMatchAppend(first, second, data);
    var u := FirstMatch(first, data);
    if u.Some? then u else FirstMatch(second, data)
  }

  lemma {:induction false} FirstMatchAppend(a: seq<Route>, b: seq<Route>, data: string)
    ensures FirstMatch(a + b, data) == if FirstMatch(a, data).Some? then FirstMatch(a, data) else FirstMatch(b, data)
    decreases |a|
  {
    if a != [] {
      assert (a + b)[1..] == a[1..] + b;
      FirstMatchAppend(a[1..], b, data);
    } else {
      assert a + b == b;
    }
  }

  /** Routing as written: the user router, whose product page takes every
      `product_` prefix, ahead of the admin router. */
  function DispatchAsWritten(data: string): Option<Handler> {
    Dispatcher(UserRoutes(Prefix("product_")), AdminRoutes(), data)
  }

  /** Corrected routing: the product page leaves the admin's type-step data alone. */
  function Dispatch(data: string): Option<Handler> {
    Dispatcher(UserRoutes(PrefixBut("product_", TypeStepPrefix)), AdminRoutes(), data)
  }

  // ---------------------------------------------------------------------------
  // The type step as written

  /** The callback data of the admin's two type buttons: `product_type_text` and
      `product_type_file`. */
  predicate TypeWord(w: string) {
    w == "text" || w == "file"
  }

  /** The admin's type buttons reach the product page, whose `int(data.split("_")[1])`
      is `int("type")` and raises: the type step of adding a product cannot be
      reached. */
  lemma TypeStepMisrouted(w: string)
    requires TypeWord(w)
    ensures DispatchAsWritten(TypeStepPrefix + w) == Some(ShowProduct)
    ensures DecodeId(TypeStepPrefix + w, 1) == None
  {
    if w == "text" {
      TypeDataMisrouted("product_type_text", w);
    } else {
      TypeDataMisrouted("product_type_file", w);
    }
  }

  lemma TypeDataMisrouted(data: string, w: string)
    requires TypeWord(w) && data == TypeStepPrefix + w
    ensures DispatchAsWritten(data) == Some(ShowProduct)
    ensures DecodeId(data, 1) == None
  {
    assert data[..8] == "product_";
    assert FirstMatch(UserMenuRoutes(), data) == None;
    FirstMatchAppend(UserMenuRoutes(), [Route(Prefix("product_"), ShowProduct)], data);
    FirstMatchAppend(UserMenuRoutes() + [Route(Prefix("product_"), ShowProduct)], UserShopRoutes(), data);
    TypeWordSplit(data, w);
    assert ParseInt("type") == None;
  }

  lemma TypeWordSplit(data: string, w: string)
    requires TypeWord(w) && data == TypeStepPrefix + w
    ensures Split(data, Underscore) == ["product", "type", w]
  {
    assert data == "product" + Underscore + "type" + Underscore + w;
    TwoWordTail("product", "type", w);
  }

  lemma TwoWordTail(w1: string, w2: string, w3: string)
    requires '_' !in w1 && '_' !in w2 && '_' !in w3
    ensures Split(w1 + Underscore + w2 + Underscore + w3, Underscore) == [w1, w2, w3]
  {
    assert w1 + Underscore + w2 + Underscore + w3 == w1 + Underscore + (w2 + Underscore + w3);
    SplitWord(w1, w2 + Underscore + w3);
    SplitWord(w2, w3);
    ContainsChar(w3, '_');
    SplitWithoutSep(w3, Underscore);
  }

  /** With the corrected filter the type buttons reach the type step. */
  lemma TypeStepRouted(w: string)
    requires TypeWord(w)
    ensures Dispatch(TypeStepPrefix + w) == Some(if w == "text" then TypeText else TypeFile)
  {
    var data := TypeStepPrefix + w;
    TypeStepMissesUser(data, w);
    TypeStepReachesAdmin(w);
  }

  lemma TypeStepMissesUser(data: string, w: string)
    requires TypeWord(w) && data == TypeStepPrefix + w
    ensures FirstMatch(UserRoutes(PrefixBut("product_", TypeStepPrefix)), data) == None
  {
    var f := PrefixBut("product_", TypeStepPrefix);
    assert data[..13] == TypeStepPrefix;
    assert FirstMatch([Route(f, ShowProduct)], data) == None;
    assert FirstMatch(UserMenuRoutes(), data) == None;
    TypeStepMissesShop(data);
    FirstMatchAppend(UserMenuRoutes(), [Route(f, ShowProduct)], data);
    FirstMatchAppend(UserMenuRoutes() + [Route(f, ShowProduct)], UserShopRoutes(), data);
  }

  lemma TypeStepMissesShop(data: string)
    requires |data| == 17 && data[0] == 'p'
    ensures FirstMatch(UserShopRoutes(), data) == None
  {
    DiffersAt(data, "buy_", 0);
    DiffersAt(data, "check_payment_", 0);
  }

  lemma TypeStepReachesAdmin(w: string)
    requires TypeWord(w)
    ensures FirstMatch(AdminRoutes(), TypeStepPrefix + w) == Some(if w == "text" then TypeText else TypeFile)
  {
    if w == "text" {
      TextReachesAdmin(TypeStepPrefix + w);
    } else {
      FileReachesAdmin(TypeStepPrefix + w);
    }
  }

  lemma TextReachesAdmin(data: string)
    requires data == "product_type_text"
    ensures FirstMatch(AdminRoutes(), data) == Some(TypeText)
  {
    DiffersAt(data, "admin_add_product", 0);
    FirstMatchAt(AdminMenuRoutes(), data, 3);
    InAdminMenu(data);
  }

  lemma FileReachesAdmin(data: string)
    requires data == "product_type_file"
    ensures FirstMatch(AdminRoutes(), data) == Some(TypeFile)
  {
    DiffersAt(data, "admin_add_product", 0);
    DiffersAt(data, "product_type_text", 13);
    FirstMatchAt(AdminMenuRoutes(), data, 4);
    InAdminMenu(data);
  }

  lemma InAdminMenu(data: string)
    requires FirstMatch(AdminMenuRoutes(), data).Some?
    ensures FirstMatch(AdminRoutes(), data) == FirstMatch(AdminMenuRoutes(), data)
  {
    FirstMatchAppend(AdminMenuRoutes(), AdminProductRoutes(), data);
    FirstMatchAppend(AdminMenuRoutes() + AdminProductRoutes(), AdminReportRoutes(), data);
  }

  // ---------------------------------------------------------------------------
  // The correction changes nothing else

  /** Two route lists whose filters accept the same data route it the same way. */
  lemma {:induction false} FirstMatchAgree(r1: seq<Route>, r2: seq<Route>, data: string)
    requires |r1| == |r2|
    requires forall i :: 0 <= i < |r1| ==> r1[i].handler == r2[i].handler
    requires forall i :: 0 <= i < |r1| ==> Matches(r1[i].filter, data) == Matches(r2[i].filter, data)
    ensures FirstMatch(r1, data) == FirstMatch(r2, data)
    decreases |r1|
  {
    if r1 != [] {
      FirstMatchAgree(r1[1..], r2[1..], data);
    }
  }

  /** Data that does not start with the type-step prefix is routed alike by both. */
  lemma CorrectionOnlyTypeStep(data: string)
    requires !StartsWith(data, TypeStepPrefix)
    ensures Dispatch(data) == DispatchAsWritten(data)
  {
    var r1 := UserRoutes(PrefixBut("product_", TypeStepPrefix));
    var r2 := UserRoutes(Prefix("product_"));
    assert Matches(r1[2].filter, data) == Matches(r2[2].filter, data);
    assert forall i :: 0 <= i < |r1| && i != 2 ==> r1[i] == r2[i];
    FirstMatchAgree(r1, r2, data);
  }

  // ---------------------------------------------------------------------------
  // Every keyboard's callback data reaches the handler meant for it

  /** The user handlers that read an id: the product page, the purchase and the
      payment check. */
  lemma ProductDataRouted(id: int)
    ensures Dispatch(ProductData(id)) == Some(ShowProduct)
  {
    var data := ProductData(id);
    var f := PrefixBut("product_", TypeStepPrefix);
    DiffersAt(data, "back_to_main", 0);
    DiffersAt(data, TypeStepPrefix, 8);
    assert data[..8] == "product_";
    assert FirstMatch([Route(f, ShowProduct)], data) == Some(ShowProduct);
    InUserPrefix(data, f, ShowProduct);
  }

  lemma BuyDataRouted(id: int)
    ensures Dispatch(BuyData(id)) == Some(BuyProduct)
  {
    var data := BuyData(id);
    var f := PrefixBut("product_", TypeStepPrefix);
    DiffersAt(data, "back_to_main", 1);
    DiffersAt(data, "catalog", 0);
    DiffersAt(data, "product_", 0);
    assert data[..4] == "buy_";
    InUserShop(data, f, BuyProduct);
  }

  lemma CheckPaymentDataRouted(paymentId: string)
    ensures Dispatch(CheckPaymentData(paymentId)) == Some(CheckPayment)
  {
    var data := CheckPaymentData(paymentId);
    var f := PrefixBut("product_", TypeStepPrefix);
    DiffersAt(data, "back_to_main", 0);
    DiffersAt(data, "catalog", 1);
    DiffersAt(data, "product_", 0);
    DiffersAt(data, "buy_", 0);
    assert data[..14] == CheckPaymentPrefix;
    InUserShop(data, f, CheckPayment);
  }

  lemma InUserPrefix(data: string, f: Filter, h: Handler)
    requires FirstMatch(UserMenuRoutes(), data) == None
    requires FirstMatch([Route(f, ShowProduct)], data) == Some(h)
    ensures Dispatcher(UserRoutes(f), AdminRoutes(), data) == Some(h)
  {
    FirstMatchAppend(UserMenuRoutes(), [Route(f, ShowProduct)], data);
    FirstMatchAppend(UserMenuRoutes() + [Route(f, ShowProduct)], UserShopRoutes(), data);
  }

  lemma InUserShop(data: string, f: Filter, h: Handler)
    requires FirstMatch(UserMenuRoutes(), data) == None
    requires !Matches(f, data)
    requires FirstMatch(UserShopRoutes(), data) == Some(h)
    ensures Dispatcher(UserRoutes(f), AdminRoutes(), data) == Some(h)
  {
    assert FirstMatch([Route(f, ShowProduct)], data) == None;
    FirstMatchAppend(UserMenuRoutes(), [Route(f, ShowProduct)], data);
    FirstMatchAppend(UserMenuRoutes() + [Route(f, ShowProduct)], UserShopRoutes(), data);
  }

  /** Data starting with `a` is for the admin router: no user handler takes it. */
  lemma UserMissesAdminData(data: string)
    requires |data| >= 1 && data[0] == 'a'
    ensures FirstMatch(UserRoutes(PrefixBut("product_", TypeStepPrefix)), data) == None
  {
    var f := PrefixBut("product_", TypeStepPrefix);
    DiffersAt(data, "product_", 0);
    assert FirstMatch([Route(f, ShowProduct)], data) == None;
    UserMenuMissesAdminData(data);
    UserShopMissesAdminData(data);
    FirstMatchAppend(UserMenuRoutes(), [Route(f, ShowProduct)], data);
    FirstMatchAppend(UserMenuRoutes() + [Route(f, ShowProduct)], UserShopRoutes(), data);
  }

  lemma UserMenuMissesAdminData(data: string)
    requires |data| >= 1 && data[0] == 'a'
    ensures FirstMatch(UserMenuRoutes(), data) == None
  {
    DiffersAt(data, "back_to_main", 0);
    DiffersAt(data, "catalog", 0);
  }

  lemma UserShopMissesAdminData(data: string)
    requires |data| >= 1 && data[0] == 'a'
    ensures FirstMatch(UserShopRoutes(), data) == None
  {
    ShopHeadMisses(data);
    DiffersAt(data, "info", 0);
    DiffersAt(data, "support", 0);
  }

  lemma ShopHeadMisses(data: string)
    requires |data| >= 1 && data[0] == 'a'
    ensures !Matches(Prefix("buy_"), data) && !Matches(Prefix("check_payment_"), data)
    ensures !Matches(Exact("cancel_payment"), data)
  {
    DiffersAt(data, "buy_", 0);
    DiffersAt(data, "check_payment_", 0);
    DiffersAt(data, "cancel_payment", 0);
  }

  /** The admin product page's data passes the menu group, the product list
      included, and reaches the product page. */
  lemma AdminProductDataRouted(id: int)
    ensures Dispatch(AdminProductData(id)) == Some(ProductDetail)
  {
    var data := AdminProductData(id);
    assert data[..14] == "admin_product_";
    UserMissesAdminData(data);
    AdminMenuMissesProductData(data);
    assert FirstMatch(AdminProductRoutes(), data) == Some(ProductDetail);
    FirstMatchAppend(AdminMenuRoutes(), AdminProductRoutes(), data);
    FirstMatchAppend(AdminMenuRoutes() + AdminProductRoutes(), AdminReportRoutes(), data);
  }

  lemma AdminMenuMissesProductData(data: string)
    requires |data| >= 15 && data[..14] == "admin_product_"
    ensures FirstMatch(AdminMenuRoutes(), data) == None
  {
    AdminMenuHeadMisses(data);
    AdminMenuTypeMisses(data);
  }

  lemma AdminMenuTypeMisses(data: string)
    requires |data| >= 15 && data[..14] == "admin_product_"
    ensures !Matches(Exact("product_type_text"), data) && !Matches(Exact("product_type_file"), data)
  {
    DiffersAt(data, "product_type_text", 0);
    DiffersAt(data, "product_type_file", 0);
  }

  lemma AdminMenuHeadMisses(data: string)
    requires |data| >= 15 && data[..14] == "admin_product_"
    ensures !Matches(Exact("admin_menu"), data) && !Matches(Exact("admin_close"), data)
    ensures !Matches(Exact("admin_add_product"), data) && !Matches(Exact("admin_products"), data)
  {
    DiffersAt(data, "admin_menu", 6);
    DiffersAt(data, "admin_close", 6);
    DiffersAt(data, "admin_add_product", 6);
  }
}
