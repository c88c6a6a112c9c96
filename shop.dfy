/**
 * The shop database: the five tables with their AUTOINCREMENT counters, and
 * one method per form handler. Each handler either takes effect completely
 * or leaves the database as it was, as each single SQLite statement does.
 */
module Shop {
  import opened Wrappers
  import opened Table
  import opened Schema
  import opened Money
  import opened Timestamps
  import opened Text
  import opened Clients
  import opened Catalogue
  import opened Dashboard

  /** Why a handler made no change. */
  datatype Error =
    | MissingField      // a required form field is empty
    | DuplicatePhone    // the UNIQUE constraint on clients.phone
    | NotConfirmed      // the confirm checkbox was not ticked
    | NotFound          // no listed row has the entered id
    | BadImageType      // the upload's type has no "/", so no extension
    | UnlistedOperator  // the stored operator is none of the four select-box choices

  datatype Outcome = Done | Refused(error: Error)

  datatype Inserted = Added(id: nat) | Rejected(error: Error)

  /** Everything the database holds: the tables created, their rows, and each table's last issued id. */
  datatype Snapshot = Snapshot(
    tables: set<TableName>,
    clients: seq<Row<Client>>,
    orders: seq<Row<RechargeOrder>>,
    productOrders: seq<Row<ProductOrder>>,
    products: seq<Row<Product>>,
    plans: seq<Row<Plan>>,
    clientSeq: nat,
    orderSeq: nat,
    productOrderSeq: nat,
    productSeq: nat,
    planSeq: nat)

  /** All five tables exist, every id lies below its counter in increasing order, and no phone repeats. */
  ghost predicate Consistent(s: Snapshot)
  {
    && s.tables == AllTables
    && Keyed(s.clients, s.clientSeq)
    && Keyed(s.orders, s.orderSeq)
    && Keyed(s.productOrders, s.productOrderSeq)
    && Keyed(s.products, s.productSeq)
    && Keyed(s.plans, s.planSeq)
    && PhonesUnique(s.clients)
  }

  class Database {
    var tables: set<TableName>
    var clients: seq<Row<Client>>
    var orders: seq<Row<RechargeOrder>>
    var productOrders: seq<Row<ProductOrder>>
    var products: seq<Row<Product>>
    var plans: seq<Row<Plan>>
    var clientSeq: nat
    var orderSeq: nat
    var productOrderSeq: nat
    var productSeq: nat
    var planSeq: nat

    function State(): Snapshot
      reads this
    {
      Snapshot(tables, clients, orders, productOrders, products, plans,
               clientSeq, orderSeq, productOrderSeq, productSeq, planSeq)
    }

    ghost predicate Valid()
      reads this
    {
      Consistent(State())
    }

    /** A fresh database file: `get_connection` on a path that holds nothing yet. */
    constructor ()
      ensures Valid()
      ensures State() == Snapshot(AllTables, [], [], [], [], [], 0, 0, 0, 0, 0)
    {
      tables := {};
      clients, orders, productOrders, products, plans := [], [], [], [], [];
      clientSeq, orderSeq, productOrderSeq, productSeq, planSeq := 0, 0, 0, 0, 0;
      new;
      CreateTables();
    }

    /** The `CREATE TABLE IF NOT EXISTS` statements, in order: missing tables are created, existing rows stay. */
    method CreateTables()
      modifies this
      ensures State() == old(State()).(tables := old(tables) + AllTables)
    {
      for k := 0 to |CreationOrder|
        invariant State() == old(State()).(tables := old(tables) + set j | 0 <= j < k :: CreationOrder[j])
      {
        if CreationOrder[k] !in tables {
          tables := tables + {CreationOrder[k]};
        }
        assert (set j | 0 <= j < k + 1 :: CreationOrder[j]) == (set j | 0 <= j < k :: CreationOrder[j]) + {CreationOrder[k]};
      }
      assert (set j | 0 <= j < |CreationOrder| :: CreationOrder[j]) == AllTables by {
        assert CreationOrder[0] == ClientsTable && CreationOrder[1] == RechargePlansTable && CreationOrder[2] == ProductsTable;
        assert CreationOrder[3] == OrdersTable && CreationOrder[4] == ProductOrdersTable;
      }
    }

    /** `get_connection` on an existing database changes nothing in it. */
    method GetConnection()
      requires Valid()
      modifies this
      ensures Valid()
      ensures State() == old(State())
    {
      CreateTables();
    }

    // ---------------------------------------------------------------- clients

    method AddClient(f: ClientForm) returns (out: Inserted)
      requires Valid()
      modifies this
      ensures Valid()
      ensures !AddFormComplete(f) ==> out == Rejected(MissingField) && State() == old(State())
      ensures AddFormComplete(f) && PhoneTaken(old(clients), f.phone) ==>
        out == Rejected(DuplicatePhone) && State() == old(State())
      ensures AddFormComplete(f) && !PhoneTaken(old(clients), f.phone) ==>
        out == Added(old(clientSeq) + 1) &&
        State() == old(State()).(clients := old(clients) + [Row(old(clientSeq) + 1, NewClient(f))],
                                 clientSeq := old(clientSeq) + 1)
    {
      if !AddFormComplete(f) {
        return Rejected(MissingField);
      }
      if PhoneTaken(clients, f.phone) {
        return Rejected(DuplicatePhone);
      }
      var row := Row(clientSeq + 1, NewClient(f));
      InsertKeyed(clients, clientSeq, row.rec);
      AppendKeepsPhonesUnique(clients, row);
      clients, clientSeq := clients + [row], clientSeq + 1;
      out := Added(row.id);
    }

    /** The edit form's UPDATE of all twelve columns of row `id`; a phone held by another row is refused. */
    method UpdateClient(id: nat, f: ClientForm) returns (out: Outcome)
      requires Valid()
      modifies this
      ensures Valid()
      ensures HasId(old(clients), id) && PhoneTakenByOther(old(clients), f.phone, id) ==>
        out == Refused(DuplicatePhone) && State() == old(State())
      ensures !(HasId(old(clients), id) && PhoneTakenByOther(old(clients), f.phone, id)) ==>
        out == Done && State() == old(State()).(clients := Overwrite(old(clients), id, EditedClient(f)))
    {
      if HasId(clients, id) && PhoneTakenByOther(clients, f.phone, id) {
        return Refused(DuplicatePhone);
      }
      OverwriteKeyed(clients, clientSeq, id, EditedClient(f));
      OverwriteKeepsPhonesUnique(clients, id, EditedClient(f));
      clients := Overwrite(clients, id, EditedClient(f));
      out := Done;
    }

    /** Deleting a client leaves its orders in place: the schema has no foreign keys. */
    method DeleteClient(id: nat, confirmed: bool) returns (out: Outcome)
      requires Valid()
      modifies this
      ensures Valid()
      ensures !confirmed ==> out == Refused(NotConfirmed) && State() == old(State())
      ensures confirmed ==> out == Done && State() == old(State()).(clients := Without(old(clients), id))
    {
      if !confirmed {
        return Refused(NotConfirmed);
      }
      WithoutKeyed(clients, clientSeq, id);
      WithoutKeepsPhonesUnique(clients, id);
      clients := Without(clients, id);
      out := Done;
    }

    /** The lucky draw; `pick` is the position the random sample chose. */
    method LuckyDraw(pick: nat) returns (winner: Option<nat>)
      requires Valid()
      requires clients != [] ==> pick < |clients|
      modifies this
      ensures Valid()
      ensures old(clients) == [] ==> winner == None && State() == old(State())
      ensures old(clients) != [] ==>
        winner == Some(old(clients)[pick].id) &&
        State() == old(State()).(clients := old(clients)[pick := Row(old(clients)[pick].id, Win(old(clients)[pick].rec))])
      ensures TotalWins(clients) == TotalWins(old(clients)) + (if old(clients) == [] then 0 else 1)
    {
      if clients == [] {
        return None;
      }
      var w := clients[pick];
      OverwriteAt(clients, pick, Win(w.rec));
      DrawKeepsTable(clients, clientSeq, pick);
      DrawAddsOneWin(clients, pick);
      clients := Overwrite(clients, w.id, Win(w.rec));
      winner := Some(w.id);
    }

    // -------------------------------------------------------- recharge orders

    /**
     * The add-order form: the discount is drawn as `r` between the two bounds
     * (the configured ones, or 0.0025 and 0.0175 on the legacy page); the
     * commission column is written as 0.0.
     */
    method AddRechargeOrder(clientId: nat, amount: real, r: real, lo: real, hi: real, status: OrderStatus, now: DateTime)
      returns (id: nat)
      requires Valid() && ValidDateTime(now)
      requires lo <= r <= hi || hi <= r <= lo
      modifies this
      ensures Valid()
      ensures id == old(orderSeq) + 1
      ensures State() == old(State()).(
        orders := old(orders) + [Row(id, RechargeOrder(clientId, amount, OrderDiscount(amount, r), 0.0, status, Stamp(now)))],
        orderSeq := id)
      ensures CommissionsUnset(old(orders)) ==> CommissionsUnset(orders)
    {
      var rec := RechargeOrder(clientId, amount, OrderDiscount(amount, r), 0.0, status, Stamp(now));
      InsertKeyed(orders, orderSeq, rec);
      orders, orderSeq := orders + [Row(orderSeq + 1, rec)], orderSeq + 1;
      id := orderSeq;
    }

    /**
     * The edit-order form: a fresh discount with `r` between the fixed
     * bounds, and only client_id, amount, discount and status written.
     */
    method UpdateRechargeOrder(id: nat, clientId: nat, amount: real, r: real, status: OrderStatus)
      requires Valid()
      requires FixedDiscountMin <= r <= FixedDiscountMax
      modifies this
      ensures Valid()
      ensures !HasId(old(orders), id) ==> State() == old(State())
      ensures HasId(old(orders), id) ==>
        State() == old(State()).(orders := Overwrite(old(orders), id,
          Find(old(orders), id).value.(clientId := clientId, amount := amount, discount := EditDiscount(amount, r), status := status)))
      ensures CommissionsUnset(old(orders)) ==> CommissionsUnset(orders)
    {
      match Find(orders, id)
      case None =>
      case Some(o) =>
        var e := o.(clientId := clientId, amount := amount, discount := EditDiscount(amount, r), status := status);
        OverwriteKeyed(orders, orderSeq, id, e);
        orders := Overwrite(orders, id, e);
    }

    method DeleteRechargeOrder(id: nat, confirmed: bool) returns (out: Outcome)
      requires Valid()
      modifies this
      ensures Valid()
      ensures !confirmed ==> out == Refused(NotConfirmed) && State() == old(State())
      ensures confirmed ==> out == Done && State() == old(State()).(orders := Without(old(orders), id))
    {
      if !confirmed {
        return Refused(NotConfirmed);
      }
      WithoutKeyed(orders, orderSeq, id);
      orders := Without(orders, id);
      out := Done;
    }

    /** `add_recharge_order`: the helper that stores the computed commission. */
    method RecordRechargeOrder(clientId: nat, amount: real, discount: real, status: OrderStatus, now: DateTime)
      returns (id: nat)
      requires Valid() && ValidDateTime(now)
      modifies this
      ensures Valid()
      ensures id == old(orderSeq) + 1
      ensures State() == old(State()).(
        orders := old(orders) + [Row(id, RechargeOrder(clientId, amount, discount, Commission(amount, discount), status, Stamp(now)))],
        orderSeq := id)
      ensures CommissionsCurrent(old(orders)) ==> CommissionsCurrent(orders)
    {
      var rec := RechargeOrder(clientId, amount, discount, Commission(amount, discount), status, Stamp(now));
      InsertKeyed(orders, orderSeq, rec);
      orders, orderSeq := orders + [Row(orderSeq + 1, rec)], orderSeq + 1;
      id := orderSeq;
    }

    /** `update_recharge_order`: amount, discount, status and the recomputed commission of row `id`. */
    method ReviseRechargeOrder(id: nat, amount: real, discount: real, status: OrderStatus)
      requires Valid()
      modifies this
      ensures Valid()
      ensures !HasId(old(orders), id) ==> State() == old(State())
      ensures HasId(old(orders), id) ==>
        State() == old(State()).(orders := Overwrite(old(orders), id,
          Find(old(orders), id).value.(amount := amount, discount := discount, commission := Commission(amount, discount), status := status)))
      ensures CommissionsCurrent(old(orders)) ==> CommissionsCurrent(orders)
    {
      match Find(orders, id)
      case None =>
      case Some(o) =>
        var e := o.(amount := amount, discount := discount, commission := Commission(amount, discount), status := status);
        OverwriteKeyed(orders, orderSeq, id, e);
        orders := Overwrite(orders, id, e);
    }

    // -------------------------------------------------------- product orders

    /** The add form writes product, client, quantity, status and the time; `amount` stays NULL. */
    method AddProductOrder(productId: nat, clientId: nat, quantity: nat, status: ProductOrderStatus, now: DateTime)
      returns (id: nat)
      requires Valid() && ValidDateTime(now)
      modifies this
      ensures Valid()
      ensures id == old(productOrderSeq) + 1
      ensures State() == old(State()).(
        productOrders := old(productOrders) + [Row(id, ProductOrder(productId, clientId, quantity, None, status, Stamp(now)))],
        productOrderSeq := id)
    {
      var rec := ProductOrder(productId, clientId, quantity, None, status, Stamp(now));
      InsertKeyed(productOrders, productOrderSeq, rec);
      productOrders, productOrderSeq := productOrders + [Row(productOrderSeq + 1, rec)], productOrderSeq + 1;
      id := productOrderSeq;
    }

    /** The edit form writes product_id, client_id, quantity and status of row `id`. */
    method UpdateProductOrder(id: nat, productId: nat, clientId: nat, quantity: nat, status: ProductOrderStatus)
      requires Valid()
      modifies this
      ensures Valid()
      ensures !HasId(old(productOrders), id) ==> State() == old(State())
      ensures HasId(old(productOrders), id) ==>
        State() == old(State()).(productOrders := Overwrite(old(productOrders), id,
          Find(old(productOrders), id).value.(productId := productId, clientId := clientId, quantity := quantity, status := status)))
    {
      match Find(productOrders, id)
      case None =>
      case Some(o) =>
        var e := o.(productId := productId, clientId := clientId, quantity := quantity, status := status);
        OverwriteKeyed(productOrders, productOrderSeq, id, e);
        productOrders := Overwrite(productOrders, id, e);
    }

    method DeleteProductOrder(id: nat, confirmed: bool) returns (out: Outcome)
      requires Valid()
      modifies this
      ensures Valid()
      ensures !confirmed ==> out == Refused(NotConfirmed) && State() == old(State())
      ensures confirmed ==> out == Done && State() == old(State()).(productOrders := Without(old(productOrders), id))
    {
      if !confirmed {
        return Refused(NotConfirmed);
      }
      WithoutKeyed(productOrders, productOrderSeq, id);
      productOrders := Without(productOrders, id);
      out := Done;
    }

    // ------------------------------------------------ legacy product catalogue

    /**
     * The legacy add-product form: name, category and a non-zero price are
     * required; an upload is stored under "products/"; stock takes its
     * default 0 and the image list stays NULL.
     */
    method LegacyAddProduct(name: string, category: string, subcategory: string, price: real, description: string,
                            upload: Option<string>) returns (out: Inserted)
      requires Valid()
      modifies this
      ensures Valid()
      ensures !FormComplete(name, category, price) ==> out == Rejected(MissingField) && State() == old(State())
      ensures FormComplete(name, category, price) && NewImagePath(ProductImageDir, name, upload, "").None? ==>
        out == Rejected(BadImageType) && State() == old(State())
      ensures FormComplete(name, category, price) && NewImagePath(ProductImageDir, name, upload, "").Some? ==>
        out == Added(old(productSeq) + 1) &&
        State() == old(State()).(
          products := old(products) + [Row(old(productSeq) + 1, Product(name, category, subcategory, price, 0, description,
                                                                    NewImagePath(ProductImageDir, name, upload, "").value, []))],
          productSeq := old(productSeq) + 1)
    {
      if !FormComplete(name, category, price) {
        return Rejected(MissingField);
      }
      var path := NewImagePath(ProductImageDir, name, upload, "");
      if path.None? {
        return Rejected(BadImageType);
      }
      var rec := Product(name, category, subcategory, price, 0, description, path.value, []);
      InsertKeyed(products, productSeq, rec);
      products, productSeq := products + [Row(productSeq + 1, rec)], productSeq + 1;
      out := Added(productSeq);
    }

    /**
     * The legacy edit-product form: name, category, subcategory, price,
     * description and image_path of row `id`; with no upload the stored path
     * is kept. Stock and the image list are not written.
     */
    method LegacyUpdateProduct(id: nat, name: string, category: string, subcategory: string, price: real,
                               description: string, upload: Option<string>) returns (out: Outcome)
      requires Valid()
      modifies this
      ensures Valid()
      ensures !HasId(old(products), id) ==> State() == old(State())
      ensures HasId(old(products), id) ==>
        var p := Find(old(products), id).value;
        match NewImagePath(ProductImageDir, name, upload, p.imagePath)
        case None => out == Refused(BadImageType) && State() == old(State())
        case Some(path) => out == Done && State() == old(State()).(products := Overwrite(old(products), id,
          p.(name := name, category := category, subcategory := subcategory, price := price,
             description := description, imagePath := path)))
    {
      match Find(products, id)
      case None =>
        out := Done;
      case Some(p) =>
        var path := NewImagePath(ProductImageDir, name, upload, p.imagePath);
        if path.None? {
          return Refused(BadImageType);
        }
        var e := p.(name := name, category := category, subcategory := subcategory, price := price,
                    description := description, imagePath := path.value);
        OverwriteKeyed(products, productSeq, id, e);
        products := Overwrite(products, id, e);
        out := Done;
    }

    method LegacyDeleteProduct(id: nat, confirmed: bool) returns (out: Outcome)
      requires Valid()
      modifies this
      ensures Valid()
      ensures !confirmed ==> out == Refused(NotConfirmed) && State() == old(State())
      ensures confirmed ==> out == Done && State() == old(State()).(products := Without(old(products), id))
    {
      if !confirmed {
        return Refused(NotConfirmed);
      }
      WithoutKeyed(products, productSeq, id);
      products := Without(products, id);
      out := Done;
    }

    // --------------------------------------------------- legacy plan catalogue

    /** The legacy add-plan form: name, operator and a non-zero price are required; an upload goes under "recharge_plans/". */
    method LegacyAddPlan(name: string, data: string, voice: string, sms: string, validity: int, operator: string,
                         subcategory: string, price: real, description: string, upload: Option<string>)
      returns (out: Inserted)
      requires Valid()
      modifies this
      ensures Valid()
      ensures !FormComplete(name, operator, price) ==> out == Rejected(MissingField) && State() == old(State())
      ensures FormComplete(name, operator, price) && NewImagePath(PlanImageDir, name, upload, "").None? ==>
        out == Rejected(BadImageType) && State() == old(State())
      ensures FormComplete(name, operator, price) && NewImagePath(PlanImageDir, name, upload, "").Some? ==>
        out == Added(old(planSeq) + 1) &&
        State() == old(State()).(
          plans := old(plans) + [Row(old(planSeq) + 1, Plan(name, data, voice, sms, validity, operator, subcategory, price,
                                                         description, NewImagePath(PlanImageDir, name, upload, "").value))],
          planSeq := old(planSeq) + 1)
    {
      if !FormComplete(name, operator, price) {
        return Rejected(MissingField);
      }
      var path := NewImagePath(PlanImageDir, name, upload, "");
      if path.None? {
        return Rejected(BadImageType);
      }
      var rec := Plan(name, data, voice, sms, validity, operator, subcategory, price, description, path.value);
      InsertKeyed(plans, planSeq, rec);
      plans, planSeq := plans + [Row(planSeq + 1, rec)], planSeq + 1;
      out := Added(planSeq);
    }

    /** The legacy edit-plan form writes all ten columns of row `id`; with no upload the stored image path is kept. */
    method LegacyUpdatePlan(id: nat, name: string, data: string, voice: string, sms: string, validity: int,
                            operator: string, subcategory: string, price: real, description: string,
                            upload: Option<string>) returns (out: Outcome)
      requires Valid()
      modifies this
      ensures Valid()
      ensures !HasId(old(plans), id) ==> State() == old(State())
      ensures HasId(old(plans), id) ==>
        match NewImagePath(PlanImageDir, name, upload, Find(old(plans), id).value.imagePath)
        case None => out == Refused(BadImageType) && State() == old(State())
        case Some(path) => out == Done && State() == old(State()).(plans := Overwrite(old(plans), id,
          Plan(name, data, voice, sms, validity, operator, subcategory, price, description, path)))
    {
      match Find(plans, id)
      case None =>
        out := Done;
      case Some(p) =>
        var path := NewImagePath(PlanImageDir, name, upload, p.imagePath);
        if path.None? {
          return Refused(BadImageType);
        }
        var e := Plan(name, data, voice, sms, validity, operator, subcategory, price, description, path.value);
        OverwriteKeyed(plans, planSeq, id, e);
        plans := Overwrite(plans, id, e);
        out := Done;
    }

    method LegacyDeletePlan(id: nat, confirmed: bool) returns (out: Outcome)
      requires Valid()
      modifies this
      ensures Valid()
      ensures !confirmed ==> out == Refused(NotConfirmed) && State() == old(State())
      ensures confirmed ==> out == Done && State() == old(State()).(plans := Without(old(plans), id))
    {
      if !confirmed {
        return Refused(NotConfirmed);
      }
      WithoutKeyed(plans, planSeq, id);
      plans := Without(plans, id);
      out := Done;
    }

    // ------------------------------------------------- product catalogue tab

    /**
     * The catalogue tab's add form: the widgets admit only a price of at least 0
     * and a whole stock of at least 0; no field is checked; every upload becomes
     * one entry of the image list, in order.
     */
    method AddProduct(name: string, category: string, subcategory: string, price: real, stock: nat,
                      description: string, fileNames: seq<string>) returns (id: nat)
      requires Valid()
      requires price >= 0.0
      modifies this
      ensures Valid()
      ensures id == old(productSeq) + 1
      ensures State() == old(State()).(
        products := old(products) + [Row(id, Product(name, category, subcategory, price, stock, description, "",
                                                     ProductImageList(name, fileNames)))],
        productSeq := id)
      ensures Find(products, id).Some? && Find(products, id).value.price >= 0.0
    {
      var paths := ProductImagePaths(name, fileNames);
      var rec := Product(name, category, subcategory, price, stock, description, "", paths);
      InsertKeyed(products, productSeq, rec);
      products, productSeq := products + [Row(productSeq + 1, rec)], productSeq + 1;
      id := productSeq;
      FindAt(products, |products| - 1);
    }

    /**
     * The catalogue tab's edit form, shown only for a listed id: seven columns
     * written, the image list kept with no uploads and replaced otherwise; the
     * price widget again admits only prices of at least 0.
     */
    method UpdateProduct(id: nat, name: string, category: string, subcategory: string, price: real, stock: nat,
                         description: string, fileNames: seq<string>) returns (out: Outcome)
      requires Valid()
      requires price >= 0.0
      modifies this
      ensures Valid()
      ensures !HasId(old(products), id) ==> out == Refused(NotFound) && State() == old(State())
      ensures HasId(old(products), id) ==>
        var p := Find(old(products), id).value;
        out == Done && State() == old(State()).(products := Overwrite(old(products), id,
          p.(name := name, category := category, subcategory := subcategory, price := price, stock := stock,
             description := description, imagePaths := KeptOrReplacedImages(p.imagePaths, name, fileNames))))
      ensures HasId(old(products), id) ==> Find(products, id).Some? && Find(products, id).value.price >= 0.0
    {
      match Find(products, id)
      case None =>
        out := Refused(NotFound);
      case Some(p) =>
        var paths := p.imagePaths;
        if fileNames != [] {
          paths := ProductImagePaths(name, fileNames);
        }
        var e := p.(name := name, category := category, subcategory := subcategory, price := price, stock := stock,
                    description := description, imagePaths := paths);
        OverwriteKeyed(products, productSeq, id, e);
        FindAfterOverwrite(products, id, e, id);
        products := Overwrite(products, id, e);
        out := Done;
    }

    /** The catalogue tab's delete button: no confirmation, but only for a listed id. */
    method DeleteProduct(id: nat) returns (out: Outcome)
      requires Valid()
      modifies this
      ensures Valid()
      ensures !HasId(old(products), id) ==> out == Refused(NotFound) && State() == old(State())
      ensures HasId(old(products), id) ==> out == Done && State() == old(State()).(products := Without(old(products), id))
    {
      if !HasId(products, id) {
        return Refused(NotFound);
      }
      WithoutKeyed(products, productSeq, id);
      products := Without(products, id);
      out := Done;
    }

    // ---------------------------------------------------- plan catalogue tab

    /** The catalogue tab's add form: the widgets admit only a listed operator, a price of at least 0 and a validity of at least 1. */
    method AddPlan(name: string, operator: string, price: real, validity: int, data: string, voice: string,
                   sms: string, description: string) returns (id: nat)
      requires Valid()
      requires operator in Operators && price >= 0.0 && validity >= 1
      modifies this
      ensures Valid()
      ensures id == old(planSeq) + 1
      ensures State() == old(State()).(
        plans := old(plans) + [Row(id, Plan(name, data, voice, sms, validity, operator, "", price, description, ""))],
        planSeq := id)
      ensures CataloguePlan(plans[|plans| - 1].rec)
    {
      var rec := Plan(name, data, voice, sms, validity, operator, "", price, description, "");
      InsertKeyed(plans, planSeq, rec);
      plans, planSeq := plans + [Row(planSeq + 1, rec)], planSeq + 1;
      id := planSeq;
    }

    /**
     * The catalogue tab's edit form, shown only for a listed id whose stored
     * operator is one of the select box's choices: eight columns written,
     * subcategory and image path kept.
     */
    method UpdatePlan(id: nat, name: string, operator: string, price: real, validity: int, data: string,
                      voice: string, sms: string, description: string) returns (out: Outcome)
      requires Valid()
      requires operator in Operators && price >= 0.0 && validity >= 1
      modifies this
      ensures Valid()
      ensures !HasId(old(plans), id) ==> out == Refused(NotFound) && State() == old(State())
      ensures HasId(old(plans), id) && Find(old(plans), id).value.operator !in Operators ==>
        out == Refused(UnlistedOperator) && State() == old(State())
      ensures HasId(old(plans), id) && Find(old(plans), id).value.operator in Operators ==>
        out == Done && State() == old(State()).(plans := Overwrite(old(plans), id,
          Find(old(plans), id).value.(name := name, data := data, voice := voice, sms := sms, validity := validity,
                                      operator := operator, price := price, description := description)))
    {
      match Find(plans, id)
      case None =>
        out := Refused(NotFound);
      case Some(p) =>
        if p.operator !in Operators {
          return Refused(UnlistedOperator);
        }
        var e := p.(name := name, data := data, voice := voice, sms := sms, validity := validity,
                    operator := operator, price := price, description := description);
        OverwriteKeyed(plans, planSeq, id, e);
        plans := Overwrite(plans, id, e);
        out := Done;
    }

    /** The catalogue tab's delete button: no confirmation; reached only past the edit form, as for `UpdatePlan`. */
    method DeletePlan(id: nat) returns (out: Outcome)
      requires Valid()
      modifies this
      ensures Valid()
      ensures !HasId(old(plans), id) ==> out == Refused(NotFound) && State() == old(State())
      ensures HasId(old(plans), id) && Find(old(plans), id).value.operator !in Operators ==>
        out == Refused(UnlistedOperator) && State() == old(State())
      ensures HasId(old(plans), id) && Find(old(plans), id).value.operator in Operators ==>
        out == Done && State() == old(State()).(plans := Without(old(plans), id))
    {
      match Find(plans, id)
      case None =>
        out := Refused(NotFound);
      case Some(p) =>
        if p.operator !in Operators {
          return Refused(UnlistedOperator);
        }
        WithoutKeyed(plans, planSeq, id);
        plans := Without(plans, id);
        out := Done;
    }
  }
}
