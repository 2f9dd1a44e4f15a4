/** Field constraints of the request bodies (pydantic models). A body that
    violates one is refused with a validation error before any handler runs;
    the validated values are what the handlers' preconditions assume. */
module Schemas {
  import opened Types

  /** A validated ProductoBase payload (ProductoCreate and ProductoUpdate are the same shape). */
  datatype ProductInput = ProductInput(
    name: string,
    description: Option<string>,
    brand: string,
    category: string,
    price: int,
    stock: int,
    image: Option<string>)

  predicate ValidProductInput(p: ProductInput) {
    && 1 <= |p.name| <= 200
    && 1 <= |p.brand| <= 100
    && 1 <= |p.category| <= 50
    && p.price > 0
    && p.stock >= 0
  }

  /** A ProductoBase body as sent; the stock field may be omitted. */
  datatype ProductBody = ProductBody(
    name: string,
    description: Option<string>,
    brand: string,
    category: string,
    price: int,
    stock: Option<int>,
    image: Option<string>)

  /** Stock defaults to 0 when omitted. */
  const DefaultStock: int := 0

  function ParseProduct(b: ProductBody): (r: Result<ProductInput>)
    ensures r.Ok? <==>
      1 <= |b.name| <= 200 && 1 <= |b.brand| <= 100 && 1 <= |b.category| <= 50 &&
      b.price > 0 && (b.stock.None? || b.stock.value >= 0)
    ensures r.Ok? ==> ValidProductInput(r.value)
    ensures r.Ok? ==> r.value.stock == (if b.stock.Some? then b.stock.value else 0)
    ensures r.Ok? ==>
      r.value.name == b.name && r.value.description == b.description && r.value.brand == b.brand &&
      r.value.category == b.category && r.value.price == b.price && r.value.image == b.image
    ensures r.Err? ==> r.error == ValidationError
  {
    var p := ProductInput(b.name, b.description, b.brand, b.category, b.price,
                          b.stock.GetOr(DefaultStock), b.image);
    if ValidProductInput(p) then Ok(p) else Err(ValidationError)
  }

  /** CarritoAdd: the quantity to ADD, at least 1, 1 when omitted. */
  datatype CartAdd = CartAdd(productId: nat, quantity: int)

  /** Quantity added when the body omits it. */
  const DefaultAddQuantity: int := 1

  function ParseCartAdd(productId: nat, quantity: Option<int>): (r: Result<CartAdd>)
    ensures r.Ok? <==> quantity.None? || quantity.value >= 1
    ensures r.Ok? ==> r.value.productId == productId && r.value.quantity >= 1
    ensures r.Ok? ==> r.value.quantity == (if quantity.Some? then quantity.value else 1)
    ensures r.Err? ==> r.error == ValidationError
  {
    var q := quantity.GetOr(DefaultAddQuantity);
    if q >= 1 then Ok(CartAdd(productId, q)) else Err(ValidationError)
  }

  /** CarritoUpdate: the new TOTAL quantity, required, at least 1. */
  datatype CartUpdate = CartUpdate(productId: nat, quantity: int)

  function ParseCartUpdate(productId: nat, quantity: Option<int>): (r: Result<CartUpdate>)
    ensures r.Ok? <==> quantity.Some? && quantity.value >= 1
    ensures r.Ok? ==> r.value == CartUpdate(productId, quantity.value)
    ensures r.Err? ==> r.error == ValidationError
  {
    match quantity
    case None => Err(ValidationError)
    case Some(q) => if q >= 1 then Ok(CartUpdate(productId, q)) else Err(ValidationError)
  }

  /** MensajeBase: the content of a message is never empty. */
  predicate ValidMessageContent(content: string) {
    |content| >= 1
  }
}
