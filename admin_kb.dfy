/** The admin-side keyboards. */
module AdminKb {
  import opened Wrappers
  import opened Stock
  import opened Database
  import opened Markup
  import opened Callbacks

  const AdminMenuButton := Button(Plain("◀️ Назад"), Callback("admin_menu"))

  function AdminMenuKb(): Keyboard {
    [ [Button(Plain("➕ Добавить товар"), Callback("admin_add_product"))],
      [Button(Plain("📦 Управление товарами"), Callback("admin_products"))],
      [Button(Plain("📊 Статистика"), Callback("admin_stats"))],
      [Button(Plain("📋 Все заказы"), Callback("admin_orders"))],
      [Button(Plain("❌ Закрыть"), Callback("admin_close"))] ]
  }

  /** The button of one product in the admin list: its kind, name and displayed
      unit count. */
  function ProductButton(p: Product): Button {
    Button(StockLabel(p.kind, p.name, StockCount(p.kind, p.stock)), Callback(AdminProductData(p.id)))
  }

  /** `admin_products_kb`: one row per product, in the order given, then a back
      row; each label shows the product's count and each row's data reads back as
      its id. */
  method AdminProductsKb(products: seq<Product>) returns (kb: Keyboard)
    ensures |kb| == |products| + 1
    ensures forall i :: 0 <= i < |products| ==> kb[i] == [ProductButton(products[i])]
    ensures kb[|products|] == [AdminMenuButton]
    ensures forall i :: 0 <= i < |products| ==>
      && kb[i][0].caption.StockLabel?
      && kb[i][0].caption.count == StockCount(products[i].kind, products[i].stock)
      && kb[i][0].action.Callback?
      && DecodeId(kb[i][0].action.data, 2) == Some(products[i].id)
  {
    kb := [];
    var i := 0;
    while i < |products|
      invariant 0 <= i <= |products|
      invariant |kb| == i
      invariant forall k :: 0 <= k < i ==> kb[k] == [ProductButton(products[k])]
    {
      kb := kb + [[ProductButton(products[i])]];
      i := i + 1;
    }
    kb := kb + [[AdminMenuButton]];
    forall k | 0 <= k < |products|
      ensures kb[k][0].action.Callback? && DecodeId(kb[k][0].action.data, 2) == Some(products[k].id)
    {
      AdminProductDataRoundTrip(products[k].id);
    }
  }

  /** `admin_product_actions_kb`: edit price, edit description, add stock, delete,
      each reading back as the product id, then back to the list. */
  function AdminProductActionsKb(productId: int): (kb: Keyboard)
    ensures |kb| == 5 && forall i :: 0 <= i < 5 ==> |kb[i]| == 1 && kb[i][0].action.Callback?
    ensures DecodeId(kb[0][0].action.data, 3) == Some(productId)
    ensures DecodeId(kb[1][0].action.data, 3) == Some(productId)
    ensures DecodeId(kb[2][0].action.data, 3) == Some(productId)
    ensures DecodeId(kb[3][0].action.data, 2) == Some(productId)
    ensures kb[4][0].action.data == "admin_products"
  {
    AdminEditPriceDataRoundTrip(productId);
    AdminEditDescDataRoundTrip(productId);
    AdminAddStockDataRoundTrip(productId);
    AdminDeleteDataRoundTrip(productId);
    [ [Button(Plain("✏️ Изменить цену"), Callback(AdminEditPriceData(productId)))],
      [Button(Plain("📝 Изменить описание"), Callback(AdminEditDescData(productId)))],
      [Button(Plain("📦 Загрузить товар"), Callback(AdminAddStockData(productId)))],
      [Button(Plain("🗑 Удалить товар"), Callback(AdminDeleteData(productId)))],
      [Button(Plain("◀️ Назад"), Callback("admin_products"))] ]
  }

  /** `admin_confirm_delete_kb`: confirm, or cancel back to the product; both read
      back as the product id. */
  function AdminConfirmDeleteKb(productId: int): (kb: Keyboard)
    ensures |kb| == 2 && |kb[0]| == 1 && |kb[1]| == 1
    ensures kb[0][0].action.Callback? && DecodeId(kb[0][0].action.data, 3) == Some(productId)
    ensures kb[1][0].action.Callback? && DecodeId(kb[1][0].action.data, 2) == Some(productId)
  {
    AdminConfirmDeleteDataRoundTrip(productId);
    AdminProductDataRoundTrip(productId);
    [ [Button(Plain("✅ Да, удалить"), Callback(AdminConfirmDeleteData(productId)))],
      [Button(Plain("❌ Отмена"), Callback(AdminProductData(productId)))] ]
  }

  function AdminBackKb(): Keyboard {
    [ [Button(Plain("◀️ Админ меню"), Callback("admin_menu"))] ]
  }

  /** The two buttons of the type step, built inline in the price handler. */
  function ProductTypeKb(): Keyboard {
    [ [Button(Plain("📝 Текст/Ключ"), Callback("product_type_text"))],
      [Button(Plain("📎 Файл"), Callback("product_type_file"))] ]
  }
}
