/** The user-side keyboards. */
module UserKb {
  import opened Wrappers
  import opened PyStr
  import opened Database
  import opened Markup
  import opened Callbacks

  const BackToMainButton := Button(Plain("◀️ Назад"), Callback("back_to_main"))

  function MainMenuKb(): Keyboard {
    [ [Button(Plain("🛒 Каталог товаров"), Callback("catalog"))],
      [Button(Plain("📄 Информация"), Callback("info"))],
      [Button(Plain("📞 Поддержка"), Callback("support"))] ]
  }

  /** The button of one catalog entry. */
  function CatalogButton(p: Product): Button {
    Button(PriceLabel(p.name, p.price), Callback(ProductData(p.id)))
  }

  /** `catalog_kb`: one row per product, in the order given, then a back row; each
      row's data reads back as that product's id. */
  method CatalogKb(products: seq<Product>) returns (kb: Keyboard)
    ensures |kb| == |products| + 1
    ensures forall i :: 0 <= i < |products| ==> kb[i] == [CatalogButton(products[i])]
    ensures kb[|products|] == [BackToMainButton]
    ensures forall i :: 0 <= i < |products| ==>
      kb[i][0].action.Callback? && DecodeId(kb[i][0].action.data, 1) == Some(products[i].id)
  {
    kb := [];
    var i := 0;
    while i < |products|
      invariant 0 <= i <= |products|
      invariant |kb| == i
      invariant forall k :: 0 <= k < i ==> kb[k] == [CatalogButton(products[k])]
    {
      kb := kb + [[CatalogButton(products[i])]];
      i := i + 1;
    }
    kb := kb + [[BackToMainButton]];
    forall k | 0 <= k < |products|
      ensures kb[k][0].action.Callback? && DecodeId(kb[k][0].action.data, 1) == Some(products[k].id)
    {
      ProductDataRoundTrip(products[k].id);
    }
  }

  /** `product_kb`: buy this product, or back to the catalog. */
  function ProductKb(productId: int): (kb: Keyboard)
    ensures |kb| == 2 && |kb[0]| == 1 && kb[0][0].action.Callback?
    ensures DecodeId(kb[0][0].action.data, 1) == Some(productId)
    ensures kb[1] == [Button(Plain("◀️ К каталогу"), Callback("catalog"))]
  {
    BuyDataRoundTrip(productId);
    [ [Button(Plain("💳 Купить"), Callback(BuyData(productId)))],
      [Button(Plain("◀️ К каталогу"), Callback("catalog"))] ]
  }

  /** `payment_kb`: a pay button opening the gateway's page unchanged, a check
      button carrying the payment id, and a cancel button. */
  function PaymentKb(paymentUrl: string, paymentId: string): (kb: Keyboard)
    ensures |kb| == 3 && |kb[0]| == 1 && |kb[1]| == 1 && |kb[2]| == 1
    ensures kb[0][0].action == Url(paymentUrl)
    ensures kb[1][0].action == Callback(CheckPaymentData(paymentId))
    ensures kb[2][0].action == Callback("cancel_payment")
  {
    [ [Button(Plain("💳 Оплатить"), Url(paymentUrl))],
      [Button(Plain("✅ Проверить оплату"), Callback(CheckPaymentData(paymentId)))],
      [Button(Plain("❌ Отменить"), Callback("cancel_payment"))] ]
  }

  /** The check button of `payment_kb` reads back as the payment id whenever the
      id does not itself contain the `check_payment_` marker. */
  lemma PaymentKbRoundTrip(paymentUrl: string, paymentId: string)
    requires !Contains(paymentId, CheckPaymentPrefix)
    ensures DecodePaymentId(PaymentKb(paymentUrl, paymentId)[1][0].action.data) == Some(paymentId)
  {
    CheckPaymentRoundTrip(paymentId);
  }

  function BackToMainKb(): Keyboard {
    [ [Button(Plain("◀️ Главное меню"), Callback("back_to_main"))] ]
  }
}
