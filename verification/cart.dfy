/** The cart controller: `getCart`, `addProduct` and `removeProduct` over a user's cart.

    The cart is the ordered list of (product id, quantity) lines embedded in the user.
    The three repository writes whose bodies are not part of this model are taken to be:
    `updateProductQuantity` sets the quantity of the first line for the product,
    `addProductToCart` appends a line, `removeProductFromCart` pulls every line for the product. */
module CartController {
  import opened Base
  import Seqs

  /** The quantity a cart line holds: `None` when it was written from a request body that
      carried no quantity. */
  type Quantity = Option<int>

  /** One cart line; product ids are compared as strings (`item.product.toString()`). */
  datatype Line = Line(product: string, quantity: Quantity)

  /** The fields of a product the controller reads. */
  datatype Product = Product(id: string, price: Option<int>, availableQuantity: Option<int>)

  /** A cart line whose product reference has been populated, as `getCart` reads it. */
  datatype PopulatedLine = PopulatedLine(product: Product, quantity: Quantity)

  /** The JSON envelope `{message, cart}` with its status code. */
  datatype CartResponse = CartResponse(status: int, message: string, cart: Option<seq<Line>>)

  /** The repository write a request performs, if any. */
  datatype CartWrite =
    | NoWrite
    | UpdateQuantity(product: string, quantity: Quantity)
    | AddLine(product: string, quantity: Quantity)
    | RemoveLine(product: string)

  /** What a request leaves behind: the answer, the write it issued and the stored cart after it. */
  datatype Outcome = Outcome(response: CartResponse, write: CartWrite, cart: seq<Line>)

  const ProductNotFound: string := "Product not found"
  const QuantityUnavailable: string := "Product not available in the requested quantity"
  const NotInCart: string := "Product not found in cart"
  const AddErrorPrefix: string := "Error adding product to cart: "
  const RemoveErrorPrefix: string := "Error removing product from cart: "
  const QuantityUpdated: string := "Product quantity updated successfully"
  const ProductAdded: string := "Product added to cart successfully"
  const ProductRemoved: string := "Product removed from cart successfully"
  const CartFetched: string := "Cart fetched successfully"

  // ---------------------------------------------------------------------------
  // The cart as a list and as a map
  // ---------------------------------------------------------------------------

  /** `cart.find(item => item.product.toString() === productId)` finds something. */
  predicate InCart(cart: seq<Line>, productId: string) {
    exists i :: 0 <= i < |cart| && cart[i].product == productId
  }

  /** At most one line per product. */
  ghost predicate UniqueProducts(cart: seq<Line>) {
    forall i, j :: 0 <= i < j < |cart| ==> cart[i].product != cart[j].product
  }

  /** The cart read as a map from product id to quantity; the first line of a product wins,
      as `find` returns the first match. */
  function AsMap(cart: seq<Line>): (m: map<string, Quantity>)
    ensures forall pid :: pid in m <==> InCart(cart, pid)
    decreases |cart|
  {
    if |cart| == 0 then
      map[]
    else
      var rest := AsMap(cart[1..]);
      assert forall pid :: InCart(cart, pid) <==> pid == cart[0].product || InCart(cart[1..], pid) by {
        forall pid | InCart(cart, pid) && pid != cart[0].product
          ensures InCart(cart[1..], pid)
        {
          var i :| 0 <= i < |cart| && cart[i].product == pid;
          assert cart[1..][i - 1].product == pid;
        }
        forall pid | InCart(cart[1..], pid)
          ensures InCart(cart, pid)
        {
          var i :| 0 <= i < |cart[1..]| && cart[1..][i].product == pid;
          assert cart[i + 1].product == pid;
        }
      }
      rest[cart[0].product := cart[0].quantity]
  }

  // ---------------------------------------------------------------------------
  // The repository writes
  // ---------------------------------------------------------------------------

  /** `CartRepo.updateProductQuantity`: the first line for the product takes the new quantity. */
  function SetQuantity(cart: seq<Line>, productId: string, quantity: Quantity): seq<Line>
    decreases |cart|
  {
    if |cart| == 0 then []
    else if cart[0].product == productId then [Line(productId, quantity)] + cart[1..]
    else [cart[0]] + SetQuantity(cart[1..], productId, quantity)
  }

  /** The lines a removal keeps. */
  function OtherThan(productId: string): Line -> bool {
    (line: Line) => line.product != productId
  }

  function ApplyWrite(cart: seq<Line>, write: CartWrite): seq<Line> {
    match write
    case NoWrite => cart
    case UpdateQuantity(p, q) => SetQuantity(cart, p, q)
    case AddLine(p, q) => cart + [Line(p, q)]
    case RemoveLine(p) => Seqs.Filter(cart, OtherThan(p))
  }

  lemma {:induction false} SetQuantityAsMap(cart: seq<Line>, productId: string, quantity: Quantity)
    requires InCart(cart, productId)
    ensures AsMap(SetQuantity(cart, productId, quantity)) == AsMap(cart)[productId := quantity]
    decreases |cart|
  {
    var head, tail := cart[0], cart[1..];
    var s := SetQuantity(cart, productId, quantity);
    assert AsMap(cart) == AsMap(tail)[head.product := head.quantity];
    if head.product != productId {
      var i :| 0 <= i < |cart| && cart[i].product == productId;
      assert tail[i - 1].product == productId;
      SetQuantityAsMap(tail, productId, quantity);
      assert s == [head] + SetQuantity(tail, productId, quantity);
      assert s[0] == head && s[1..] == SetQuantity(tail, productId, quantity);
      MapUpdateSwap(AsMap(tail), head.product, head.quantity, productId, quantity);
    } else {
      assert s[0] == Line(productId, quantity) && s[1..] == tail;
      assert AsMap(s) == AsMap(tail)[productId := quantity];
    }
  }

  lemma MapUpdateSwap(m: map<string, Quantity>, k1: string, v1: Quantity, k2: string, v2: Quantity)
    requires k1 != k2
    ensures m[k2 := v2][k1 := v1] == m[k1 := v1][k2 := v2]
  {
  }

  lemma {:induction false} AppendAsMap(cart: seq<Line>, productId: string, quantity: Quantity)
    requires !InCart(cart, productId)
    ensures AsMap(cart + [Line(productId, quantity)]) == AsMap(cart)[productId := quantity]
    decreases |cart|
  {
    var s := cart + [Line(productId, quantity)];
    if |cart| == 0 {
      assert s[1..] == [];
    } else {
      assert s[1..] == cart[1..] + [Line(productId, quantity)];
      forall i | 0 <= i < |cart[1..]|
        ensures cart[1..][i].product != productId
      {
        assert cart[1..][i] == cart[i + 1];
      }
      AppendAsMap(cart[1..], productId, quantity);
    }
  }

  lemma {:induction false} RemoveAsMap(cart: seq<Line>, productId: string)
    ensures AsMap(Seqs.Filter(cart, OtherThan(productId))) == AsMap(cart) - {productId}
    decreases |cart|
  {
    if |cart| > 0 {
      var keep := OtherThan(productId);
      var head := cart[0];
      var tail := AsMap(cart[1..]);
      var rest := Seqs.Filter(cart[1..], keep);
      RemoveAsMap(cart[1..], productId);
      assert AsMap(rest) == tail - {productId};
      assert AsMap(cart) == tail[head.product := head.quantity];
      if head.product != productId {
        var f := [head] + rest;
        assert Seqs.Filter(cart, keep) == f;
        assert f[1..] == rest;
        MapUpdateRemove(tail, head.product, head.quantity, productId);
      } else {
        assert Seqs.Filter(cart, keep) == rest;
        MapUpdateRemoveSame(tail, productId, head.quantity);
      }
    }
  }

  lemma MapUpdateRemove(m: map<string, Quantity>, k: string, v: Quantity, gone: string)
    requires k != gone
    ensures (m - {gone})[k := v] == m[k := v] - {gone}
  {
  }

  lemma MapUpdateRemoveSame(m: map<string, Quantity>, k: string, v: Quantity)
    ensures m[k := v] - {k} == m - {k}
  {
  }

  lemma {:induction false} SetQuantityKeepsUnique(cart: seq<Line>, productId: string, quantity: Quantity)
    requires UniqueProducts(cart)
    ensures |SetQuantity(cart, productId, quantity)| == |cart|
    ensures forall i :: 0 <= i < |cart| ==> SetQuantity(cart, productId, quantity)[i].product == cart[i].product
    ensures UniqueProducts(SetQuantity(cart, productId, quantity))
    decreases |cart|
  {
    if |cart| > 0 && cart[0].product != productId {
      SetQuantityKeepsUnique(cart[1..], productId, quantity);
    }
  }

  // ---------------------------------------------------------------------------
  // addProduct
  // ---------------------------------------------------------------------------

  /** `product.available_quantity ?? 0`. */
  function Stock(product: Product): int {
    product.availableQuantity.OrElse(0)
  }

  /** The quantity guard as the code writes it, `stock < quantity || quantity <= 0` rejects.
      A missing quantity (`undefined`) or a non-numeric string (`None`) makes both comparisons
      false in JavaScript, so the guard lets it through. */
  predicate AcceptsAsWritten(stock: int, quantity: Quantity) {
    match quantity
    case None => true
    case Some(q) => !(stock < q || q <= 0)
  }

  /** The guard as intended: a present quantity with `0 < quantity <= stock`. */
  predicate Accepts(stock: int, quantity: Quantity) {
    quantity.Some? && 0 < quantity.value <= stock
  }

  /** A request without a quantity passes the guard as written, although no positive
      integer was supplied. */
  lemma MissingQuantityPassesGuardAsWritten(stock: int)
    ensures AcceptsAsWritten(stock, None)
    ensures !Accepts(stock, None)
  {
  }

  /** On a numeric quantity the intended guard and the written one agree: the request is
      rejected exactly when `quantity <= 0` or `quantity > stock`, so `quantity == stock` passes. */
  lemma GuardAgreesOnNumbers(stock: int, quantity: int)
    ensures Accepts(stock, Some(quantity)) == AcceptsAsWritten(stock, Some(quantity))
    ensures Accepts(stock, Some(quantity)) <==> !(quantity <= 0 || quantity > stock)
  {
  }

  /** Which of the two quantity guards a handler applies. */
  datatype Guard = WrittenGuard | IntendedGuard

  predicate Passes(guard: Guard, stock: int, quantity: Quantity) {
    match guard
    case WrittenGuard => AcceptsAsWritten(stock, quantity)
    case IntendedGuard => Accepts(stock, quantity)
  }

  /** The repository calls of a request besides the product lookup: `userError` is the error
      `findUserById` rejects with and `writeError` the one the cart write rejects with, `None`
      when the call resolves. A rejected write is taken to leave the stored cart as it was. */
  datatype Calls = Calls(userError: Option<string>, writeError: Option<string>)

  const Resolving := Calls(None, None)

  /** The answer of the `catch` block: status 500, the operation's prefix and the error's message. */
  function Failure(message: string, stored: seq<Line>): Outcome {
    Outcome(CartResponse(INTERNAL_SERVER_ERROR, message, None), NoWrite, stored)
  }

  /** `addProduct`, where `seen` is the cart the controller searches for an existing line and
      `stored` the cart the repository writes to. `lookup` is the product lookup: `Err` when it
      rejects, `Ok(None)` when nothing is found. The checks run in the code's order: product,
      user, quantity, write. */
  function AddProductOn(guard: Guard, lookup: Result<Option<Product>, string>, calls: Calls,
                        seen: seq<Line>, stored: seq<Line>, productId: string, quantity: Quantity): (o: Outcome)
    ensures o.cart == ApplyWrite(stored, o.write)
    ensures o.response.status == CREATED <==>
              lookup.Ok? && lookup.value.Some? && calls.userError.None?
              && Passes(guard, Stock(lookup.value.value), quantity) && calls.writeError.None?
    ensures o.response.status != CREATED ==>
              o.write == NoWrite && o.response.status == INTERNAL_SERVER_ERROR
              && o.response.cart == None && AddErrorPrefix <= o.response.message
    ensures lookup.Err? ==> o.response.message == AddErrorPrefix + lookup.error
    ensures lookup == Ok(None) ==> o.response.message == AddErrorPrefix + ProductNotFound
    ensures lookup.Ok? && lookup.value.Some? && calls.userError.Some? ==>
              o.response.message == AddErrorPrefix + calls.userError.value
    ensures lookup.Ok? && lookup.value.Some? && calls.userError.None?
            && !Passes(guard, Stock(lookup.value.value), quantity) ==>
              o.response.message == AddErrorPrefix + QuantityUnavailable
    ensures lookup.Ok? && lookup.value.Some? && calls.userError.None?
            && Passes(guard, Stock(lookup.value.value), quantity) && calls.writeError.Some? ==>
              o.response.message == AddErrorPrefix + calls.writeError.value
    ensures o.response.status == CREATED ==>
              o.response.cart == Some(o.cart)
              && (o.write == UpdateQuantity(productId, quantity) <==> InCart(seen, productId))
              && (o.write == AddLine(productId, quantity) <==> !InCart(seen, productId))
  {
    match lookup
    case Err(e) => Failure(AddErrorPrefix + e, stored)
    case Ok(None) => Failure(AddErrorPrefix + ProductNotFound, stored)
    case Ok(Some(product)) =>
      if calls.userError.Some? then
        Failure(AddErrorPrefix + calls.userError.value, stored)
      else if !Passes(guard, Stock(product), quantity) then
        Failure(AddErrorPrefix + QuantityUnavailable, stored)
      else if calls.writeError.Some? then
        Failure(AddErrorPrefix + calls.writeError.value, stored)
      else if InCart(seen, productId) then
        var write := UpdateQuantity(productId, quantity);
        var cart := ApplyWrite(stored, write);
        Outcome(CartResponse(CREATED, QuantityUpdated, Some(cart)), write, cart)
      else
        var write := AddLine(productId, quantity);
        var cart := ApplyWrite(stored, write);
        Outcome(CartResponse(CREATED, ProductAdded, Some(cart)), write, cart)
  }

  /** `addProduct` as intended: the user's own cart is searched and the quantity guard
      rejects a missing quantity. */
  function AddProduct(lookup: Result<Option<Product>, string>, calls: Calls, cart: seq<Line>,
                      productId: string, quantity: Quantity): (o: Outcome)
    ensures o.response.status == CREATED ==>
              o.response.cart == Some(o.cart) && quantity.Some? && quantity.value > 0
  {
    AddProductOn(IntendedGuard, lookup, calls, cart, cart, productId, quantity)
  }

  /** `addProduct` as the code runs it: `findUserById` resolves to a list of users, which has no
      `cart` property, so the search for an existing line always comes back empty; and the
      written guard lets a missing quantity through. */
  function AddProductAsWritten(lookup: Result<Option<Product>, string>, calls: Calls, cart: seq<Line>,
                               productId: string, quantity: Quantity): (o: Outcome)
    ensures o.response.status == CREATED ==>
              o.write == AddLine(productId, quantity) && o.cart == cart + [Line(productId, quantity)]
  {
    AddProductOn(WrittenGuard, lookup, calls, [], cart, productId, quantity)
  }

  /** A body without `quantity` is answered 201 by the code as written, which appends a line
      without a quantity; the intended handler refuses it and writes nothing. */
  lemma MissingQuantityAddedAsWritten(product: Product, cart: seq<Line>, productId: string)
    ensures AddProductAsWritten(Ok(Some(product)), Resolving, cart, productId, None)
            == Outcome(CartResponse(CREATED, ProductAdded, Some(cart + [Line(productId, None)])),
                       AddLine(productId, None), cart + [Line(productId, None)])
    ensures AddProduct(Ok(Some(product)), Resolving, cart, productId, None)
            == Failure(AddErrorPrefix + QuantityUnavailable, cart)
  {
  }

  /** An accepted request leaves exactly the intended cart: the map view of the cart gains or
      replaces the product's quantity (replaced, not summed) and nothing else changes; a
      rejected one leaves the cart as it was. */
  lemma AddProductSetsQuantity(lookup: Result<Option<Product>, string>, calls: Calls, cart: seq<Line>,
                               productId: string, quantity: Quantity)
    ensures var o := AddProduct(lookup, calls, cart, productId, quantity);
      if o.response.status == CREATED then AsMap(o.cart) == AsMap(cart)[productId := quantity]
      else o.cart == cart
  {
    var o := AddProduct(lookup, calls, cart, productId, quantity);
    if o.response.status == CREATED {
      if InCart(cart, productId) {
        SetQuantityAsMap(cart, productId, quantity);
      } else {
        AppendAsMap(cart, productId, quantity);
      }
    }
  }

  /** The controller keeps at most one line per product, and after an accepted request the
      product has exactly one line, holding the requested quantity. */
  lemma AddProductKeepsOneLinePerProduct(lookup: Result<Option<Product>, string>, calls: Calls,
                                         cart: seq<Line>, productId: string, quantity: Quantity)
    requires UniqueProducts(cart)
    ensures var o := AddProduct(lookup, calls, cart, productId, quantity);
      UniqueProducts(o.cart)
      && (o.response.status == CREATED ==>
            exists i :: 0 <= i < |o.cart| && o.cart[i] == Line(productId, quantity)
                        && forall j :: 0 <= j < |o.cart| && o.cart[j].product == productId ==> j == i)
  {
    var o := AddProduct(lookup, calls, cart, productId, quantity);
    if o.response.status == CREATED {
      AddProductSetsQuantity(lookup, calls, cart, productId, quantity);
      if InCart(cart, productId) {
        SetQuantityKeepsUnique(cart, productId, quantity);
      }
      assert UniqueProducts(o.cart) by {
        if !InCart(cart, productId) {
          assert o.cart == cart + [Line(productId, quantity)];
        }
      }
      assert InCart(o.cart, productId) && AsMap(o.cart)[productId] == quantity;
      var i := FirstLine(o.cart, productId);
      assert o.cart[i] == Line(productId, quantity);
    }
  }

  /** The index of the first line for a product present in the cart; its quantity is the one
      the map view reports. */
  function FirstLine(cart: seq<Line>, productId: string): (i: nat)
    requires InCart(cart, productId)
    ensures i < |cart| && cart[i].product == productId
    ensures forall j :: 0 <= j < i ==> cart[j].product != productId
    ensures AsMap(cart)[productId] == cart[i].quantity
    decreases |cart|
  {
    if cart[0].product == productId then 0
    else
      assert InCart(cart[1..], productId) by {
        var k :| 0 <= k < |cart| && cart[k].product == productId;
        assert cart[1..][k - 1].product == productId;
      }
      1 + FirstLine(cart[1..], productId)
  }

  /** As written, adding a product that is already in the cart appends a second line for it. */
  lemma AsWrittenAddDuplicatesLine()
    ensures var p := Product("p", Some(10), Some(3));
      var o := AddProductAsWritten(Ok(Some(p)), Resolving, [Line("p", Some(2))], "p", Some(3));
      o.cart == [Line("p", Some(2)), Line("p", Some(3))] && !UniqueProducts(o.cart)
  {
    var o := AddProductAsWritten(Ok(Some(Product("p", Some(10), Some(3)))), Resolving, [Line("p", Some(2))], "p", Some(3));
    assert o.cart[0].product == o.cart[1].product;
  }

  /** The worked example: with a stock of 3, adding 2, then 5, then 3 leaves one line of 3. */
  lemma AddProductScenario()
    ensures var lookup := Ok(Some(Product("p", Some(10), Some(3))));
      var o1 := AddProduct(lookup, Resolving, [], "p", Some(2));
      var o2 := AddProduct(lookup, Resolving, o1.cart, "p", Some(5));
      var o3 := AddProduct(lookup, Resolving, o2.cart, "p", Some(3));
      o1.cart == [Line("p", Some(2))] && o2.response.status == INTERNAL_SERVER_ERROR
      && o2.cart == [Line("p", Some(2))] && o3.cart == [Line("p", Some(3))]
  {
    var lookup := Ok(Some(Product("p", Some(10), Some(3))));
    var o1 := AddProduct(lookup, Resolving, [], "p", Some(2));
    assert o1.cart == [Line("p", Some(2))];
    assert InCart(o1.cart, "p") by { assert o1.cart[0].product == "p"; }
  }

  // ---------------------------------------------------------------------------
  // removeProduct
  // ---------------------------------------------------------------------------

  /** `removeProduct`, where `seen` is the cart the controller checks and `stored` the cart the
      repository writes to. The checks run in the code's order: user, product, write. */
  function RemoveProductOn(calls: Calls, seen: seq<Line>, stored: seq<Line>, productId: string): (o: Outcome)
    ensures o.cart == ApplyWrite(stored, o.write)
    ensures o.response.status == OK <==>
              calls.userError.None? && InCart(seen, productId) && calls.writeError.None?
    ensures o.response.status == OK ==>
              o.write == RemoveLine(productId) && o.response.cart == Some(o.cart)
              && o.response.message == ProductRemoved
    ensures o.response.status != OK ==>
              o.write == NoWrite && o.response.status == INTERNAL_SERVER_ERROR
              && o.response.cart == None && RemoveErrorPrefix <= o.response.message
    ensures calls.userError.Some? ==> o.response.message == RemoveErrorPrefix + calls.userError.value
    ensures calls.userError.None? && !InCart(seen, productId) ==>
              o.response.message == RemoveErrorPrefix + NotInCart
    ensures calls.userError.None? && InCart(seen, productId) && calls.writeError.Some? ==>
              o.response.message == RemoveErrorPrefix + calls.writeError.value
  {
    if calls.userError.Some? then
      Failure(RemoveErrorPrefix + calls.userError.value, stored)
    else if !InCart(seen, productId) then
      Failure(RemoveErrorPrefix + NotInCart, stored)
    else if calls.writeError.Some? then
      Failure(RemoveErrorPrefix + calls.writeError.value, stored)
    else
      var write := RemoveLine(productId);
      var cart := ApplyWrite(stored, write);
      Outcome(CartResponse(OK, ProductRemoved, Some(cart)), write, cart)
  }

  /** `removeProduct` as intended, over the user's own cart. */
  function RemoveProduct(calls: Calls, cart: seq<Line>, productId: string): (o: Outcome)
    ensures o.response.status == OK <==>
              calls.userError.None? && calls.writeError.None? && InCart(cart, productId)
  {
    RemoveProductOn(calls, cart, cart, productId)
  }

  /** `removeProduct` as the code runs it: the list returned by `findUserById` has no cart, so
      every removal fails, and when the user read resolves it fails as "not found in cart". */
  function RemoveProductAsWritten(calls: Calls, cart: seq<Line>, productId: string): (o: Outcome)
    ensures o.response.status == INTERNAL_SERVER_ERROR && o.cart == cart
    ensures calls.userError.None? ==> o.response.message == RemoveErrorPrefix + NotInCart
  {
    RemoveProductOn(calls, [], cart, productId)
  }

  /** A successful removal drops the product from the map view and nothing else; the remaining
      lines keep their order; in a cart with one line per product exactly one line goes. A
      failed one leaves the cart as it was. */
  lemma RemoveProductDropsOnlyThatProduct(calls: Calls, cart: seq<Line>, productId: string)
    ensures var o := RemoveProduct(calls, cart, productId);
      if o.response.status == OK then
        AsMap(o.cart) == AsMap(cart) - {productId} && Seqs.IsSubsequence(o.cart, cart)
        && (UniqueProducts(cart) ==> |o.cart| == |cart| - 1)
      else o.cart == cart
  {
    var o := RemoveProduct(calls, cart, productId);
    if o.response.status == OK {
      RemoveAsMap(cart, productId);
      if UniqueProducts(cart) {
        RemoveFromUniqueCart(cart, productId);
      }
    }
  }

  lemma {:induction false} RemoveFromUniqueCart(cart: seq<Line>, productId: string)
    requires UniqueProducts(cart) && InCart(cart, productId)
    ensures |Seqs.Filter(cart, OtherThan(productId))| == |cart| - 1
    decreases |cart|
  {
    if cart[0].product == productId {
      assert forall i :: 0 <= i < |cart[1..]| ==> OtherThan(productId)(cart[1..][i]) by {
        forall i | 0 <= i < |cart[1..]|
          ensures cart[1..][i].product != productId
        {
          assert cart[1..][i] == cart[i + 1];
        }
      }
      Seqs.FilterAll(cart[1..], OtherThan(productId));
    } else {
      assert InCart(cart[1..], productId) by {
        var k :| 0 <= k < |cart| && cart[k].product == productId;
        assert cart[1..][k - 1].product == productId;
      }
      RemoveFromUniqueCart(cart[1..], productId);
    }
  }

  // ---------------------------------------------------------------------------
  // getCart
  // ---------------------------------------------------------------------------

  /** The price converted: the stored price, with a falsy one (missing or 0) read as 0. */
  function BasePrice(product: Product): int {
    if TruthyNumber(product.price) then product.price.value else 0
  }

  /** The populated lines with every product price converted to the request currency; the
      first conversion that fails (in list order) aborts the whole pass. */
  function LocaliseLines(lines: seq<PopulatedLine>, currency: string,
                         convert: (int, string) -> Result<int, string>): (r: Result<seq<PopulatedLine>, string>)
    ensures r.Ok? <==> forall i :: 0 <= i < |lines| ==> convert(BasePrice(lines[i].product), currency).Ok?
    ensures r.Ok? ==> |r.value| == |lines|
    ensures r.Ok? ==> forall i :: 0 <= i < |lines| ==>
              r.value[i].quantity == lines[i].quantity
              && r.value[i].product.id == lines[i].product.id
              && r.value[i].product.availableQuantity == lines[i].product.availableQuantity
              && r.value[i].product.price == Some(convert(BasePrice(lines[i].product), currency).value)
    decreases |lines|
  {
    if |lines| == 0 then
      Ok([])
    else
      var line := lines[0];
      match convert(BasePrice(line.product), currency)
      case Err(e) => Err(e)
      case Ok(price) =>
        match LocaliseLines(lines[1..], currency, convert)
        case Err(e) => Err(e)
        case Ok(rest) => Ok([line.(product := line.product.(price := Some(price)))] + rest)
  }

  /** What `CartRepo.getUserCart` resolves to: no user record, a user record without a `cart`
      field, or a user with its populated cart. */
  datatype CartRecord = NoUser | NoCartField | WithCart(lines: seq<PopulatedLine>)

  /** The `TypeError` of `user?.cart.map` on a user record without a cart: `?.` guards only the
      user. */
  const MapOfUndefined: string := "Cannot read properties of undefined (reading 'map')"

  /** The response of `getCart`, carrying the populated lines. */
  datatype GetCartResponse = GetCartResponse(status: int, message: string, cart: Option<seq<PopulatedLine>>)

  /** `getCart`. `read` is the repository read, `Err` when it rejects. The handler has no
      `catch`: a rejected read, a user record without a cart and a rejected conversion are
      `Err`, and no response is sent. */
  function GetCart(read: Result<CartRecord, string>, currency: string,
                   convert: (int, string) -> Result<int, string>): (r: Result<GetCartResponse, string>)
    ensures read == Ok(NoUser) ==> r == Ok(GetCartResponse(OK, CartFetched, None))
    ensures read.Err? ==> r == Err(read.error)
    ensures read == Ok(NoCartField) ==> r == Err(MapOfUndefined)
    ensures r.Ok? ==> r.value.status == OK && r.value.message == CartFetched
    ensures read.Ok? && read.value.WithCart? ==>
              (r.Ok? <==> LocaliseLines(read.value.lines, currency, convert).Ok?)
    ensures read.Ok? && read.value.WithCart? && r.Ok? ==>
              r.value.cart == Some(LocaliseLines(read.value.lines, currency, convert).value)
  {
    match read
    case Err(e) => Err(e)
    case Ok(NoUser) => Ok(GetCartResponse(OK, CartFetched, None))
    case Ok(NoCartField) => Err(MapOfUndefined)
    case Ok(WithCart(lines)) =>
      match LocaliseLines(lines, currency, convert)
      case Err(e) => Err(e)
      case Ok(localised) => Ok(GetCartResponse(OK, CartFetched, Some(localised)))
  }

  /** A missing price and a price of 0 are localised alike: both are converted as 0. */
  lemma MissingPriceConvertsAsZero(p: Product, currency: string, convert: (int, string) -> Result<int, string>)
    requires p.price.None?
    ensures var lines := [PopulatedLine(p, Some(1))];
      var zero := [PopulatedLine(p.(price := Some(0)), Some(1))];
      LocaliseLines(lines, currency, convert).Ok? == LocaliseLines(zero, currency, convert).Ok?
      && (LocaliseLines(lines, currency, convert).Ok? ==>
            LocaliseLines(lines, currency, convert).value == LocaliseLines(zero, currency, convert).value)
  {
  }
}
