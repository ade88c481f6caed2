/** The callback data the keyboards attach to buttons and the way the handlers read
    an id back out of it: `int(data.split("_")[k])` for product ids and
    `data.split("check_payment_")[1]` for payment ids. */
module Callbacks {
  import opened Wrappers
  import opened PyStr

  const Underscore: string := "_"
  const CheckPaymentPrefix: string := "check_payment_"

  function ProductData(id: int): string { "product_" + IntToString(id) }
  function BuyData(id: int): string { "buy_" + IntToString(id) }
  function CheckPaymentData(paymentId: string): string { CheckPaymentPrefix + paymentId }
  function AdminProductData(id: int): string { "admin_product_" + IntToString(id) }
  function AdminEditPriceData(id: int): string { "admin_edit_price_" + IntToString(id) }
  function AdminEditDescData(id: int): string { "admin_edit_desc_" + IntToString(id) }
  function AdminAddStockData(id: int): string { "admin_add_stock_" + IntToString(id) }
  function AdminDeleteData(id: int): string { "admin_delete_" + IntToString(id) }
  function AdminConfirmDeleteData(id: int): string { "admin_confirm_delete_" + IntToString(id) }

  /** `int(data.split("_")[k])`: `None` where Python raises, on a missing piece
      (IndexError) or a piece that is not an integer (ValueError). */
  function DecodeId(data: string, k: nat): (r: Option<int>)
    ensures r.Some? ==> k < |Split(data, Underscore)|
  {
    var parts := Split(data, Underscore);
    if k < |parts| then ParseInt(parts[k]) else None
  }

  /** `data.split("check_payment_")[1]`: `None` (IndexError) when the marker does not
      occur. */
  function DecodePaymentId(data: string): (r: Option<string>)
    ensures r.Some? <==> |Split(data, CheckPaymentPrefix)| >= 2
  {
    var parts := Split(data, CheckPaymentPrefix);
    if |parts| >= 2 then Some(parts[1]) else None
  }

  // ---------------------------------------------------------------------------
  // Round trips

  /** The decimal form of an integer holds no underscore. */
  lemma IdHasNoUnderscore(id: int)
    ensures '_' !in IntToString(id)
    ensures Split(IntToString(id), Underscore) == [IntToString(id)]
  {
    var s := IntToString(id);
    ContainsChar(s, '_');
    SplitWithoutSep(s, Underscore);
  }

  /** A word without underscores, an underscore and the rest split into the word
      and whatever the rest splits into. */
  lemma SplitWord(w: string, rest: string)
    requires '_' !in w
    ensures Split(w + Underscore + rest, Underscore) == [w] + Split(rest, Underscore)
  {
    SplitAppend(w, '_', rest);
    assert w + Underscore + rest == w + ['_'] + rest;
    ContainsChar(w, '_');
    SplitWithoutSep(w, Underscore);
  }

  /** `product_<id>`, `buy_<id>`: piece 1 is the id. */
  lemma OneWordTag(w: string, id: int)
    requires '_' !in w
    ensures Split(w + Underscore + IntToString(id), Underscore) == [w, IntToString(id)]
  {
    SplitWord(w, IntToString(id));
    IdHasNoUnderscore(id);
  }

  /** `admin_product_<id>`, `admin_delete_<id>`: piece 2 is the id. */
  lemma TwoWordTag(w1: string, w2: string, id: int)
    requires '_' !in w1 && '_' !in w2
    ensures Split(w1 + Underscore + w2 + Underscore + IntToString(id), Underscore) == [w1, w2, IntToString(id)]
  {
    var s := IntToString(id);
    var t := w2 + Underscore + s;
    calc {
      w1 + Underscore + w2 + Underscore + s;
      (w1 + Underscore) + (w2 + Underscore + s);
      w1 + Underscore + t;
    }
    SplitWord(w1, t);
    OneWordTag(w2, id);
    assert [w1] + [w2, s] == [w1, w2, s];
  }

  /** `admin_edit_price_<id>` and the other three-word tags: piece 3 is the id. */
  lemma ThreeWordTag(w1: string, w2: string, w3: string, id: int)
    requires '_' !in w1 && '_' !in w2 && '_' !in w3
    ensures Split(w1 + Underscore + w2 + Underscore + w3 + Underscore + IntToString(id), Underscore)
      == [w1, w2, w3, IntToString(id)]
  {
    var s := IntToString(id);
    var t := w2 + Underscore + w3 + Underscore + s;
    calc {
      w1 + Underscore + w2 + Underscore + w3 + Underscore + s;
      (w1 + Underscore) + (w2 + Underscore + w3 + Underscore + s);
      w1 + Underscore + t;
    }
    SplitWord(w1, t);
    TwoWordTag(w2, w3, id);
    assert [w1] + [w2, w3, s] == [w1, w2, w3, s];
  }

  /** `int(str(id))` gives the id back. */
  lemma DecodePiece(parts: seq<string>, k: nat, id: int)
    requires k < |parts| && parts[k] == IntToString(id)
    ensures ParseInt(parts[k]) == Some(id)
  {
    ParseIntToString(id);
  }

  lemma ProductDataRoundTrip(id: int)
    ensures DecodeId(ProductData(id), 1) == Some(id)
  {
    assert ProductData(id) == "product" + Underscore + IntToString(id);
    OneWordTag("product", id);
    DecodePiece(["product", IntToString(id)], 1, id);
  }

  lemma BuyDataRoundTrip(id: int)
    ensures DecodeId(BuyData(id), 1) == Some(id)
  {
    assert BuyData(id) == "buy" + Underscore + IntToString(id);
    OneWordTag("buy", id);
    DecodePiece(["buy", IntToString(id)], 1, id);
  }

  lemma AdminProductDataRoundTrip(id: int)
    ensures DecodeId(AdminProductData(id), 2) == Some(id)
  {
    assert AdminProductData(id) == "admin" + Underscore + "product" + Underscore + IntToString(id);
    TwoWordTag("admin", "product", id);
    DecodePiece(["admin", "product", IntToString(id)], 2, id);
  }

  lemma AdminDeleteDataRoundTrip(id: int)
    ensures DecodeId(AdminDeleteData(id), 2) == Some(id)
  {
    assert AdminDeleteData(id) == "admin" + Underscore + "delete" + Underscore + IntToString(id);
    TwoWordTag("admin", "delete", id);
    DecodePiece(["admin", "delete", IntToString(id)], 2, id);
  }

  lemma AdminEditPriceDataRoundTrip(id: int)
    ensures DecodeId(AdminEditPriceData(id), 3) == Some(id)
  {
    assert AdminEditPriceData(id) == "admin" + Underscore + "edit" + Underscore + "price" + Underscore + IntToString(id);
    ThreeWordTag("admin", "edit", "price", id);
    DecodePiece(["admin", "edit", "price", IntToString(id)], 3, id);
  }

  lemma AdminEditDescDataRoundTrip(id: int)
    ensures DecodeId(AdminEditDescData(id), 3) == Some(id)
  {
    assert AdminEditDescData(id) == "admin" + Underscore + "edit" + Underscore + "desc" + Underscore + IntToString(id);
    ThreeWordTag("admin", "edit", "desc", id);
    DecodePiece(["admin", "edit", "desc", IntToString(id)], 3, id);
  }

  lemma AdminAddStockDataRoundTrip(id: int)
    ensures DecodeId(AdminAddStockData(id), 3) == Some(id)
  {
    assert AdminAddStockData(id) == "admin" + Underscore + "add" + Underscore + "stock" + Underscore + IntToString(id);
    ThreeWordTag("admin", "add", "stock", id);
    DecodePiece(["admin", "add", "stock", IntToString(id)], 3, id);
  }

  lemma AdminConfirmDeleteDataRoundTrip(id: int)
    ensures DecodeId(AdminConfirmDeleteData(id), 3) == Some(id)
  {
    assert AdminConfirmDeleteData(id) == "admin" + Underscore + "confirm" + Underscore + "delete" + Underscore + IntToString(id);
    ThreeWordTag("admin", "confirm", "delete", id);
    DecodePiece(["admin", "confirm", "delete", IntToString(id)], 3, id);
  }

  /** `check_payment_<pid>` gives `pid` back, provided the marker does not occur
      inside `pid` itself (the split would cut there too). */
  lemma CheckPaymentRoundTrip(paymentId: string)
    requires !Contains(paymentId, CheckPaymentPrefix)
    ensures DecodePaymentId(CheckPaymentData(paymentId)) == Some(paymentId)
  {
    var s := CheckPaymentData(paymentId);
    assert s[..|CheckPaymentPrefix|] == CheckPaymentPrefix;
    assert s[|CheckPaymentPrefix|..] == paymentId;
    SplitWithoutSep(paymentId, CheckPaymentPrefix);
  }
}
