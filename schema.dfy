/**
 * The columns of the five tables `get_connection` creates, as record types.
 * The key of each row lives in `Table.Row`; these are the other columns.
 * Where the legacy single-page app declares a column the newer schema lacks
 * (a plan's subcategory and image_path, a product's single image_path) the
 * record carries it too; a column a handler does not write holds the empty
 * value that stands for NULL.
 */
module Schema {
  import opened Wrappers

  datatype TableName = ClientsTable | RechargePlansTable | ProductsTable | OrdersTable | ProductOrdersTable

  /** The tables in the order the schema script creates them. */
  const CreationOrder: seq<TableName> := [ClientsTable, RechargePlansTable, ProductsTable, OrdersTable, ProductOrdersTable]

  const AllTables: set<TableName> := {ClientsTable, RechargePlansTable, ProductsTable, OrdersTable, ProductOrdersTable}

  /** A row of `clients`; `phone` is the column declared UNIQUE. */
  datatype Client = Client(
    name: string,
    phone: string,
    groupName: string,
    operator: string,
    planAmount: real,
    rechargeDay: int,
    premium: bool,
    notes: string,
    luckyDrawWins: nat,
    referred: bool,
    referredByName: string,
    referredByPhone: string)

  datatype OrderStatus = Pending | Recharged | Failed

  /** A row of `orders` (recharge orders). */
  datatype RechargeOrder = RechargeOrder(
    clientId: nat,
    amount: real,
    discount: real,
    commission: real,
    status: OrderStatus,
    createdAt: string)

  datatype ProductOrderStatus = Pending | Completed | Cancelled

  /** A row of `product_orders`; no handler writes `amount`. */
  datatype ProductOrder = ProductOrder(
    productId: nat,
    clientId: nat,
    quantity: nat,
    amount: Option<real>,
    status: ProductOrderStatus,
    createdAt: string)

  /** A row of `products`: `imagePaths` is the JSON list of the catalogue tab, `imagePath` the legacy single path. */
  datatype Product = Product(
    name: string,
    category: string,
    subcategory: string,
    price: real,
    stock: nat,
    description: string,
    imagePath: string,
    imagePaths: seq<string>)

  /** A row of `recharge_plans`. */
  datatype Plan = Plan(
    name: string,
    data: string,
    voice: string,
    sms: string,
    validity: int,
    operator: string,
    subcategory: string,
    price: real,
    description: string,
    imagePath: string)
}
