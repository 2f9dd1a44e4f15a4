/** Records of the shop's relational tables and the errors its handlers raise.
    Money is held in integer cents; timestamps are ticks of a monotone clock;
    identifiers are natural numbers handed out fresh by the store. */
module Types {

  datatype Option<+T> = None | Some(value: T) {
    function GetOr(default: T): T {
      match this
      case Some(v) => v
      case None => default
    }
  }

  datatype Result<+T> = Ok(value: T) | Err(error: Error)

  /** One constructor per distinct HTTP error response of the handlers. */
  datatype Error =
    | EmptyCart                                    // 400: checkout of a missing or empty cart
    | OutOfStock(productId: nat, available: int)   // 400: requested quantity exceeds stock
    | ProductNotFound                              // 404
    | UserNotFound                                 // 404: cart owner does not exist
    | ItemNotInCart                                // 404
    | OrderNotFound                                // 404
    | OrderForbidden                               // 403: order belongs to another user
    | SelfConversation                             // 400
    | RecipientNotFound                            // 404
    | ConversationNotFound                         // 404
    | NotParticipant                               // 403
    | EmailTaken                                   // 400
    | UsernameTaken                                // 400
    | BadCredentials                               // 401
    | AdminRequired                                // 403
    | InternalError                                // 500: a commit failed and was rolled back
    | ValidationError                              // 422: a request body field violates its schema

  /** The HTTP status each error is reported with. */
  function Status(e: Error): nat {
    match e
    case EmptyCart | OutOfStock(_, _) | SelfConversation | EmailTaken | UsernameTaken => 400
    case BadCredentials => 401
    case OrderForbidden | NotParticipant | AdminRequired => 403
    case ProductNotFound | UserNotFound | ItemNotInCart | OrderNotFound
       | RecipientNotFound | ConversationNotFound => 404
    case ValidationError => 422
    case InternalError => 500
  }

  /** Row of `usuario`. */
  datatype User = User(
    id: nat,
    username: string,             // nombre_usuario, unique
    email: string,                // unique
    passwordHash: string,
    firstName: string,            // nombre
    lastName: string,             // apellido
    phone: Option<string>,        // telefono
    registeredAt: nat,            // fecha_registro
    accountState: string,         // estado_cuenta, 'activo' by default
    role: string)                 // tipo_usuario, 'cliente' by default

  /** Row of `productos`. */
  datatype Product = Product(
    id: nat,
    name: string,                 // nombre_producto
    description: Option<string>,  // descripcion, nullable
    brand: string,                // marca
    category: string,             // categoria
    price: int,                   // precio, in cents
    stock: int,
    image: Option<string>,        // imagen
    addedAt: nat)                 // fecha_agregado

  /** Row of the cart-item table: one product and how many of it. */
  datatype CartItem = CartItem(id: nat, productId: nat, quantity: int)

  /** A user's cart; its key is the owner's id. */
  datatype Cart = Cart(userId: nat, items: seq<CartItem>, updatedAt: Option<nat>)

  /** Row of `itemspedido`: the unit price is a snapshot taken at checkout. */
  datatype OrderItem = OrderItem(
    id: nat,
    orderId: nat,
    productId: nat,
    quantity: int,
    unitPrice: int,               // precio_unitario, in cents
    subtotal: int)                // in cents

  /** Row of `pedidos` together with its lines. */
  datatype Order = Order(
    id: nat,
    userId: nat,
    placedAt: nat,                // fecha_pedido
    total: int,                   // in cents
    state: string,                // estado
    shippingAddress: string,      // direccion_envio
    items: seq<OrderItem>)

  /** Row of `mensajes`. */
  datatype Message = Message(
    id: nat,
    userId: nat,                  // author
    subject: string,              // asunto
    body: string,                 // mensaje
    sentAt: nat,                  // fecha_mensaje
    state: string)                // estado: 'leido' or 'no_leido'

  /** Row of `conversaciones`: one directed delivery of one message. */
  datatype ConvRecord = ConvRecord(
    id: nat,
    sender: nat,                  // id_usuario_remitente
    recipient: nat,               // id_usuario_destinatario
    messageId: nat,
    sentAt: nat,                  // fecha_envio
    read: bool)                   // leido

  /** A message as the API returns it (MensajeResponse). */
  datatype MessageView = MessageView(
    messageId: nat,
    conversationId: nat,
    sender: nat,
    sentAt: nat,
    read: bool,
    content: string)
}
