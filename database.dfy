/** The SQLite store of the shop: the `products`, `orders` and `users` tables and
    the functions over them. A table is held as its rows in insertion order; since
    ids come from AUTOINCREMENT they rise along that order, so "ORDER BY id" is the
    stored order and "ORDER BY created_at DESC" is its reverse. */
module Database {
  import opened Wrappers
  import opened Stock

  /** A `products` row. `description` is a nullable column; a NULL `stock` reads
      as "" because every reader treats the two alike. */
  datatype Product = Product(
    id: int, name: string, description: Option<string>, price: real, stock: string, kind: Kind)

  /** Only 'pending' (the column default) and 'paid' are ever written. */
  datatype Status = Pending | Paid

  datatype Order = Order(
    id: int, userId: int, username: string, productId: int, productName: string,
    price: real, paymentId: string, status: Status)

  datatype User = User(username: Option<string>, firstName: Option<string>, lastName: Option<string>)

  /** The keyword arguments of `update_product`: `None` leaves a column alone. */
  datatype ProductPatch = ProductPatch(
    name: Option<string>, description: Option<string>, price: Option<real>,
    stock: Option<string>, kind: Option<Kind>)

  const NoChange := ProductPatch(None, None, None, None, None)

  function StockPatch(stock: string): ProductPatch {
    ProductPatch(None, None, None, Some(stock), None)
  }

  function PricePatch(price: real): ProductPatch {
    ProductPatch(None, None, Some(price), None, None)
  }

  /** `update_product(id, description=text)`: a `None` text sets nothing. */
  function DescriptionPatch(description: Option<string>): ProductPatch {
    ProductPatch(None, description, None, None, None)
  }

  // ---------------------------------------------------------------------------
  // Table invariants

  predicate ProductIdsIncreasing(rows: seq<Product>) {
    forall i, j :: 0 <= i < j < |rows| ==> rows[i].id < rows[j].id
  }

  predicate OrderIdsIncreasing(rows: seq<Order>) {
    forall i, j :: 0 <= i < j < |rows| ==> rows[i].id < rows[j].id
  }

  /** The `UNIQUE` constraint on `orders.payment_id`. */
  predicate PaymentIdsUnique(rows: seq<Order>) {
    forall i, j :: 0 <= i < j < |rows| ==> rows[i].paymentId != rows[j].paymentId
  }

  predicate HasPayment(rows: seq<Order>, paymentId: string) {
    exists i :: 0 <= i < |rows| && rows[i].paymentId == paymentId
  }

  // ---------------------------------------------------------------------------
  // Read-only queries

  /** `get_product`: the row with that id, if there is one. */
  function FindProduct(rows: seq<Product>, id: int): (r: Option<Product>)
    ensures r.Some? <==> exists i :: 0 <= i < |rows| && rows[i].id == id
    ensures r.Some? ==> r.value in rows && r.value.id == id
  {
    if rows == [] then None
    else if rows[0].id == id then Some(rows[0])
    else FindProduct(rows[1..], id)
  }

  /** `get_order_by_payment`: the order with that payment id, if there is one. */
  function FindOrder(rows: seq<Order>, paymentId: string): (r: Option<Order>)
    ensures r.Some? <==> HasPayment(rows, paymentId)
    ensures r.Some? ==> r.value in rows && r.value.paymentId == paymentId
  {
    if rows == [] then None
    else if rows[0].paymentId == paymentId then Some(rows[0])
    else
      var r := FindOrder(rows[1..], paymentId);
      assert HasPayment(rows[1..], paymentId) ==> HasPayment(rows, paymentId) by {
        if HasPayment(rows[1..], paymentId) {
          var i :| 0 <= i < |rows[1..]| && rows[1..][i].paymentId == paymentId;
          assert rows[i + 1].paymentId == paymentId;
        }
      }
      r
  }

  /** `get_all_orders` (`ORDER BY created_at DESC`): newest first. */
  function NewestFirst(rows: seq<Order>): (r: seq<Order>)
    ensures |r| == |rows|
    ensures forall i :: 0 <= i < |rows| ==> r[i] == rows[|rows| - 1 - i]
  {
    if rows == [] then [] else NewestFirst(rows[1..]) + [rows[0]]
  }

  /** In a table with increasing ids a row is found by its own id. */
  lemma {:induction false} FindProductAt(rows: seq<Product>, i: int)
    requires ProductIdsIncreasing(rows) && 0 <= i < |rows|
    ensures FindProduct(rows, rows[i].id) == Some(rows[i])
    decreases |rows|
  {
    if i > 0 {
      assert rows[0].id < rows[i].id;
      assert ProductIdsIncreasing(rows[1..]);
      FindProductAt(rows[1..], i - 1);
    }
  }

  /** Under the UNIQUE constraint an order is found by its own payment id. */
  lemma {:induction false} FindOrderAt(rows: seq<Order>, i: int)
    requires PaymentIdsUnique(rows) && 0 <= i < |rows|
    ensures FindOrder(rows, rows[i].paymentId) == Some(rows[i])
    decreases |rows|
  {
    if i > 0 {
      assert rows[0].paymentId != rows[i].paymentId;
      assert PaymentIdsUnique(rows[1..]);
      FindOrderAt(rows[1..], i - 1);
    }
  }

  // ---------------------------------------------------------------------------
  // Row updates as values

  /** One row after `update_product`: the given columns take the given values and
      the others keep theirs. */
  function Patched(p: Product, patch: ProductPatch): (r: Product)
    ensures r.id == p.id
    ensures r.name == (if patch.name.Some? then patch.name.value else p.name)
    ensures r.description == (if patch.description.Some? then patch.description else p.description)
    ensures r.price == (if patch.price.Some? then patch.price.value else p.price)
    ensures r.stock == (if patch.stock.Some? then patch.stock.value else p.stock)
    ensures r.kind == (if patch.kind.Some? then patch.kind.value else p.kind)
  {
    var p1 := if patch.name.Some? then p.(name := patch.name.value) else p;
    var p2 := if patch.description.Some? then p1.(description := patch.description) else p1;
    var p3 := if patch.price.Some? then p2.(price := patch.price.value) else p2;
    var p4 := if patch.stock.Some? then p3.(stock := patch.stock.value) else p3;
    if patch.kind.Some? then p4.(kind := patch.kind.value) else p4
  }

  /** `UPDATE products SET … WHERE id = ?` on the whole table. */
  function PatchRows(rows: seq<Product>, id: int, patch: ProductPatch): (r: seq<Product>)
    ensures |r| == |rows|
    ensures forall i :: 0 <= i < |rows| ==>
      r[i] == if rows[i].id == id then Patched(rows[i], patch) else rows[i]
  {
    if rows == [] then []
    else [if rows[0].id == id then Patched(rows[0], patch) else rows[0]] + PatchRows(rows[1..], id, patch)
  }

  /** `DELETE FROM products WHERE id = ?`. */
  function RemoveProduct(rows: seq<Product>, id: int): (r: seq<Product>)
    ensures forall p :: p in r <==> p in rows && p.id != id
    ensures |r| <= |rows|
    ensures ProductIdsIncreasing(rows) ==> ProductIdsIncreasing(r)
  {
    if rows == [] then []
    else
      var rest := RemoveProduct(rows[1..], id);
      assert forall p :: p in rows[1..] ==> p in rows;
      if rows[0].id == id then rest
      else
        assert ProductIdsIncreasing(rows) ==> ProductIdsIncreasing([rows[0]] + rest) by {
          if ProductIdsIncreasing(rows) {
            assert ProductIdsIncreasing(rows[1..]);
            RemoveKeepsOrder(rows, rest);
          }
        }
        [rows[0]] + rest
  }

  /** The first row of an increasing table may go in front of any increasing
      selection of the other rows. */
  lemma RemoveKeepsOrder(rows: seq<Product>, rest: seq<Product>)
    requires rows != [] && ProductIdsIncreasing(rows) && ProductIdsIncreasing(rest)
    requires forall p :: p in rest ==> p in rows[1..]
    ensures ProductIdsIncreasing([rows[0]] + rest)
  {
    var r := [rows[0]] + rest;
    forall i, j | 0 <= i < j < |r| ensures r[i].id < r[j].id {
      if i == 0 {
        assert r[j] in rest;
        var k :| 0 <= k < |rows[1..]| && rows[1..][k] == r[j];
        assert rows[k + 1] == r[j];
      } else {
        assert r[i] == rest[i - 1] && r[j] == rest[j - 1];
      }
    }
  }

  /** `UPDATE orders SET status = ? WHERE payment_id = ?` on the whole table. */
  function SetStatus(rows: seq<Order>, paymentId: string, status: Status): (r: seq<Order>)
    ensures |r| == |rows|
    ensures forall i :: 0 <= i < |rows| ==>
      r[i] == if rows[i].paymentId == paymentId then rows[i].(status := status) else rows[i]
  {
    if rows == [] then []
    else
      [if rows[0].paymentId == paymentId then rows[0].(status := status) else rows[0]]
      + SetStatus(rows[1..], paymentId, status)
  }

  /** An update with no column given leaves every row as it was. */
  lemma PatchNothing(rows: seq<Product>, id: int)
    ensures PatchRows(rows, id, NoChange) == rows
  {
    var r := PatchRows(rows, id, NoChange);
    assert forall i :: 0 <= i < |rows| ==> r[i] == rows[i];
  }

  /** After a status update the order is found with its new status, every other
      order is untouched, and payment ids stay unique. */
  lemma FindOrderSetStatus(rows: seq<Order>, paymentId: string, status: Status)
    requires PaymentIdsUnique(rows) && FindOrder(rows, paymentId).Some?
    ensures FindOrder(SetStatus(rows, paymentId, status), paymentId)
      == Some(FindOrder(rows, paymentId).value.(status := status))
    ensures PaymentIdsUnique(SetStatus(rows, paymentId, status))
  {
    var r := SetStatus(rows, paymentId, status);
    var i :| 0 <= i < |rows| && rows[i].paymentId == paymentId;
    FindOrderAt(rows, i);
    SetStatusUnique(rows, paymentId, status);
    SetStatusAt(rows, paymentId, status, i);
    FindOrderAt(r, i);
  }

  lemma SetStatusUnique(rows: seq<Order>, paymentId: string, status: Status)
    requires PaymentIdsUnique(rows)
    ensures PaymentIdsUnique(SetStatus(rows, paymentId, status))
  {
    SamePaymentIds(rows, SetStatus(rows, paymentId, status));
  }

  lemma SetStatusAt(rows: seq<Order>, paymentId: string, status: Status, i: int)
    requires 0 <= i < |rows| && rows[i].paymentId == paymentId
    ensures SetStatus(rows, paymentId, status)[i] == rows[i].(status := status)
  {
  }

  lemma SamePaymentIds(a: seq<Order>, b: seq<Order>)
    requires |a| == |b| && forall k :: 0 <= k < |a| ==> a[k].paymentId == b[k].paymentId
    requires PaymentIdsUnique(a)
    ensures PaymentIdsUnique(b)
  {
  }

  /** After an update of a row the row is found patched, and ids stay increasing. */
  lemma FindProductPatched(rows: seq<Product>, id: int, patch: ProductPatch)
    requires ProductIdsIncreasing(rows) && FindProduct(rows, id).Some?
    ensures FindProduct(PatchRows(rows, id, patch), id) == Some(Patched(FindProduct(rows, id).value, patch))
    ensures ProductIdsIncreasing(PatchRows(rows, id, patch))
  {
    var r := PatchRows(rows, id, patch);
    var i :| 0 <= i < |rows| && rows[i].id == id;
    FindProductAt(rows, i);
    PatchRowsIncreasing(rows, id, patch);
    PatchRowsAt(rows, id, patch, i);
    FindProductAt(r, i);
  }

  lemma PatchRowsIncreasing(rows: seq<Product>, id: int, patch: ProductPatch)
    requires ProductIdsIncreasing(rows)
    ensures ProductIdsIncreasing(PatchRows(rows, id, patch))
  {
    SameProductIds(rows, PatchRows(rows, id, patch));
  }

  lemma PatchRowsAt(rows: seq<Product>, id: int, patch: ProductPatch, i: int)
    requires 0 <= i < |rows| && rows[i].id == id
    ensures PatchRows(rows, id, patch)[i] == Patched(rows[i], patch)
  {
  }

  lemma SameProductIds(a: seq<Product>, b: seq<Product>)
    requires |a| == |b| && forall k :: 0 <= k < |a| ==> a[k].id == b[k].id
    requires ProductIdsIncreasing(a)
    ensures ProductIdsIncreasing(b)
  {
  }

  /** An order appended under a fresh payment id is the one found by that id, and
      payment ids stay unique. */
  lemma FindOrderAppended(rows: seq<Order>, o: Order)
    requires PaymentIdsUnique(rows) && !HasPayment(rows, o.paymentId)
    ensures FindOrder(rows + [o], o.paymentId) == Some(o)
    ensures PaymentIdsUnique(rows + [o])
  {
    var r := rows + [o];
    assert forall i :: 0 <= i < |rows| ==> r[i] == rows[i] && rows[i].paymentId != o.paymentId;
    assert PaymentIdsUnique(r);
    FindOrderAt(r, |rows|);
  }

  /** A status update for a payment id no order carries changes nothing. */
  lemma SetStatusMissing(rows: seq<Order>, paymentId: string, status: Status)
    requires !HasPayment(rows, paymentId)
    ensures SetStatus(rows, paymentId, status) == rows
  {
    var r := SetStatus(rows, paymentId, status);
    assert forall i :: 0 <= i < |rows| ==> r[i] == rows[i];
  }

  /** An update of an id no row carries changes nothing. */
  lemma PatchMissing(rows: seq<Product>, id: int, patch: ProductPatch)
    requires FindProduct(rows, id).None?
    ensures PatchRows(rows, id, patch) == rows
  {
    var r := PatchRows(rows, id, patch);
    assert forall i :: 0 <= i < |rows| ==> r[i] == rows[i];
  }

  /** The store. Every function of the source's database layer that writes is a
      method here; the read-only queries are the functions above, applied to the
      fields. */
  class Db {
    var products: seq<Product>
    var nextProductId: int
    var orders: seq<Order>
    var nextOrderId: int
    var users: map<int, User>

    ghost predicate Valid()
      reads this
    {
      && ProductIdsIncreasing(products)
      && (forall i :: 0 <= i < |products| ==> products[i].id < nextProductId)
      && OrderIdsIncreasing(orders)
      && (forall i :: 0 <= i < |orders| ==> orders[i].id < nextOrderId)
      && PaymentIdsUnique(orders)
    }

    /** `init_db` on a fresh file: three empty tables. */
    constructor ()
      ensures Valid()
      ensures products == [] && orders == [] && users == map[]
      ensures nextProductId == 1 && nextOrderId == 1
    {
      products, nextProductId := [], 1;
      orders, nextOrderId := [], 1;
      users := map[];
    }

    /** `add_product`: a new row with the next id, which is returned. */
    method AddProduct(name: string, description: Option<string>, price: real, stock: string, kind: Kind)
      returns (id: int)
      requires Valid()
      modifies this
      ensures Valid()
      ensures id == old(nextProductId) && nextProductId == id + 1
      ensures products == old(products) + [Product(id, name, description, price, stock, kind)]
      ensures orders == old(orders) && nextOrderId == old(nextOrderId) && users == old(users)
    {
      id := nextProductId;
      products := products + [Product(id, name, description, price, stock, kind)];
      nextProductId := nextProductId + 1;
    }

    /** `update_product`: only the row with that id, only the columns given; with
        no column given no statement is run at all. */
    method UpdateProduct(id: int, patch: ProductPatch)
      requires Valid()
      modifies this
      ensures Valid()
      ensures products == PatchRows(old(products), id, patch)
      ensures nextProductId == old(nextProductId)
      ensures orders == old(orders) && nextOrderId == old(nextOrderId) && users == old(users)
    {
      if patch != NoChange {
        products := PatchRows(products, id, patch);
      } else {
        PatchNothing(products, id);
      }
    }

    /** `delete_product`. Orders that name the product stay, since SQLite does not
        enforce the foreign key unless asked to. */
    method DeleteProduct(id: int)
      requires Valid()
      modifies this
      ensures Valid()
      ensures products == RemoveProduct(old(products), id)
      ensures nextProductId == old(nextProductId)
      ensures orders == old(orders) && nextOrderId == old(nextOrderId) && users == old(users)
    {
      products := RemoveProduct(products, id);
    }

    /** `get_stock_item`: claim one unit of a product's stock. Nothing is written
        when the product is missing or the claim finds nothing; otherwise the
        product's stock becomes what the claim leaves, even when that is "". */
    method GetStockItem(id: int) returns (item: Option<string>)
      requires Valid()
      modifies this
      ensures Valid()
      ensures var p := FindProduct(old(products), id);
        if p.None? || Claim(p.value.stock).None? then
          item.None? && products == old(products)
        else
          var c := Claim(p.value.stock).value;
          item == Some(c.item) && products == PatchRows(old(products), id, StockPatch(c.rest))
      ensures nextProductId == old(nextProductId)
      ensures orders == old(orders) && nextOrderId == old(nextOrderId) && users == old(users)
    {
      var p := FindProduct(products, id);
      if p.None? {
        return None;
      }
      var c := Claim(p.value.stock);
      if c.None? {
        return None;
      }
      item := Some(c.value.item);
      UpdateProduct(id, StockPatch(c.value.rest));
    }

    /** `create_order`: a new 'pending' order with the next id. A payment id that
        an order already carries breaks the UNIQUE constraint: the insert fails
        and nothing changes. */
    method CreateOrder(userId: int, username: string, productId: int, productName: string,
                       price: real, paymentId: string)
      returns (r: Result<int, string>)
      requires Valid()
      modifies this
      ensures Valid()
      ensures r.Failure? <==> HasPayment(old(orders), paymentId)
      ensures r.Failure? ==> orders == old(orders) && nextOrderId == old(nextOrderId)
      ensures r.Success? ==>
        && r.value == old(nextOrderId) && nextOrderId == r.value + 1
        && orders == old(orders) + [Order(r.value, userId, username, productId, productName, price, paymentId, Pending)]
      ensures products == old(products) && nextProductId == old(nextProductId) && users == old(users)
    {
      if FindOrder(orders, paymentId).Some? {
        return Failure("UNIQUE constraint failed: orders.payment_id");
      }
      var id := nextOrderId;
      orders := orders + [Order(id, userId, username, productId, productName, price, paymentId, Pending)];
      nextOrderId := nextOrderId + 1;
      r := Success(id);
    }

    /** `update_order_status`: every order with that payment id (at most one). */
    method UpdateOrderStatus(paymentId: string, status: Status)
      requires Valid()
      modifies this
      ensures Valid()
      ensures orders == SetStatus(old(orders), paymentId, status)
      ensures nextOrderId == old(nextOrderId)
      ensures products == old(products) && nextProductId == old(nextProductId) && users == old(users)
    {
      orders := SetStatus(orders, paymentId, status);
    }

    /** `add_user`: INSERT OR IGNORE keyed by the user id; a known user is kept as
        first stored. */
    method AddUser(userId: int, username: Option<string>, firstName: Option<string>, lastName: Option<string>)
      requires Valid()
      modifies this
      ensures Valid()
      ensures users == if userId in old(users) then old(users) else old(users)[userId := User(username, firstName, lastName)]
      ensures products == old(products) && nextProductId == old(nextProductId)
      ensures orders == old(orders) && nextOrderId == old(nextOrderId)
    {
      if userId !in users {
        users := users[userId := User(username, firstName, lastName)];
      }
    }
  }
}
