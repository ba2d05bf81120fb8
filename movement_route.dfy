/**
 * The stock ledger: the POST handler of the inventory movement route. It validates a
 * movement request, reads the product's current stock, applies the rule of the movement
 * type, saves one movement record with a previous/new stock snapshot, then writes the
 * new balance and the type's bookkeeping back to the product.
 *
 * `Post` states the handler as a function of the two stores; `Ledger.ApplyMovement`
 * performs it step by step on a ledger object and is proved to agree with it.
 */
module MovementRoute {
  import opened Wrappers
  import opened InventoryMovementModel
  import opened ProductModel

  /** The request body; "" stands for an absent string, None for an absent or non-numeric quantity. */
  datatype MovementRequest = MovementRequest(
    productId: string,
    typeTag: string,
    quantity: Option<int>,
    reason: Option<string>,
    reference: Option<string>,
    notes: Option<string>)

  /** JavaScript truthiness of the quantity: absent, NaN and 0 are all falsy. */
  predicate QuantityTruthy(q: Option<int>) {
    q.Some? && q.value != 0
  }

  /** `!productId || !type || !quantity` */
  predicate MissingFields(req: MovementRequest) {
    req.productId == "" || req.typeTag == "" || !QuantityTruthy(req.quantity)
  }

  datatype LedgerError =
    | MissingRequiredFields
    | ProductNotFound
    | InsufficientStock
    | InvalidMovementType
    | RecordRejected(fields: set<MovementField>)

  /** The HTTP status of each rejection; a record the schema refuses surfaces as a 500. */
  function HttpStatus(e: LedgerError): (code: int)
    ensures code == 404 <==> e == ProductNotFound
    ensures code == 500 <==> e.RecordRejected?
    ensures code == 400 <==> !(e == ProductNotFound || e.RecordRejected?)
  {
    match e
    case ProductNotFound => 404
    case RecordRejected(_) => 500
    case _ => 400
  }

  function Max(a: int, b: int): int {
    if a >= b then a else b
  }

  /**
   * The balance rule for a recognised movement type; None when a stock-out asks for more
   * than is in stock.
   */
  function NextStock(t: MovementType, previous: int, quantity: int): Option<int> {
    match t
    case In => Some(previous + quantity)
    case Out => if previous < quantity then None else Some(Max(0, previous - quantity))
    case Adjustment => Some(quantity)
    case Transfer => Some(Max(0, previous - quantity))
  }

  /**
   * Each rule spelled out: stock-in adds, stock-out subtracts and fails only when the
   * quantity exceeds the stock, adjustment sets the balance, transfer subtracts but
   * never below zero; for a stock of at least 0 and a quantity of at least 1 the
   * result is never negative.
   */
  lemma NextStockSpec(t: MovementType, previous: int, quantity: int)
    ensures t == In ==> NextStock(t, previous, quantity) == Some(previous + quantity)
    ensures t == Out ==>
      (NextStock(t, previous, quantity).None? <==> quantity > previous)
      && (quantity <= previous ==> NextStock(t, previous, quantity) == Some(previous - quantity))
    ensures t == Adjustment ==> NextStock(t, previous, quantity) == Some(quantity)
    ensures t == Transfer ==>
      NextStock(t, previous, quantity) == Some(if quantity > previous then 0 else previous - quantity)
    ensures previous >= 0 && quantity >= 1 && NextStock(t, previous, quantity).Some? ==>
      NextStock(t, previous, quantity).value >= 0
  {
  }

  /** The product fields written back: the balance, who and when, and per-type bookkeeping. */
  function Bookkeep(p: Product, t: MovementType, quantity: int, newStock: int, userId: string, now: int): Product {
    var base := p.(currentStock := newStock, updatedBy := Some(userId), updatedAt := now);
    match t
    case In => base.(lastRestocked := Some(now))
    case Out => base.(totalSold := p.totalSold + quantity, lastSold := Some(now))
    case _ => base
  }

  /** The success response: the saved record, the new balance and, for a stock-out, totalSold. */
  datatype Receipt = Receipt(movement: Movement, newStock: int, totalSold: Option<int>)

  /** The response together with the two stores after the request. */
  datatype Outcome = Outcome(
    response: Result<Receipt, LedgerError>,
    products: map<string, Product>,
    log: seq<Movement>)

  /** The record the handler builds for a request that got past every check. */
  function Candidate(
    log: seq<Movement>, req: MovementRequest, t: MovementType, previous: int, newStock: int,
    userId: string, now: int): Movement
    requires req.quantity.Some?
  {
    NewMovement(|log|, req.productId, t, req.quantity.value, previous, newStock,
                req.reason, req.reference, req.notes, userId, now)
  }

  /** A request that passed every check: its type, the new balance and the saved record. */
  datatype Accepted = Accepted(movementType: MovementType, newStock: int, saved: Movement)

  /**
   * The checks of the handler, in order, up to and including the record's save. An
   * accepted request names a known product, and the saved record carries the request's
   * type and quantity, the stock read, the stock the type's rule computes, the caller and
   * the time.
   */
  function Decide(
    products: map<string, Product>, log: seq<Movement>, req: MovementRequest,
    userId: string, now: int): (r: Result<Accepted, LedgerError>)
    ensures r.Ok? ==>
      var a, m := r.value, r.value.saved;
      && !MissingFields(req) && req.productId in products
      && ParseType(req.typeTag) == Some(a.movementType)
      && NextStock(a.movementType, products[req.productId].currentStock, req.quantity.value) == Some(a.newStock)
      && m.id == |log| && m.productId == req.productId && m.movementType == a.movementType
      && m.quantity == req.quantity.value
      && m.previousStock == products[req.productId].currentStock && m.newStock == a.newStock
      && m.userId == userId && m.timestamp == now
      && InventoryMovementModel.SchemaValid(m)
  {
    if MissingFields(req) then Err(MissingRequiredFields)
    else if req.productId !in products then Err(ProductNotFound)
    else
      var previous := products[req.productId].currentStock;
      match ParseType(req.typeTag)
      case None => Err(InvalidMovementType)
      case Some(t) =>
        match NextStock(t, previous, req.quantity.value)
        case None => Err(InsufficientStock)
        case Some(newStock) =>
          match Save(Candidate(log, req, t, previous, newStock, userId, now))
          case Err(fields) => Err(RecordRejected(fields))
          case Ok(saved) => Ok(Accepted(t, newStock, saved))
  }

  /** The POST handler as a function of the product store and the movement log. */
  function Post(
    products: map<string, Product>, log: seq<Movement>, req: MovementRequest,
    userId: string, now: int): Outcome
  {
    match Decide(products, log, req, userId, now)
    case Err(e) => Outcome(Err(e), products, log)
    case Ok(a) =>
      var updated := Bookkeep(products[req.productId], a.movementType, req.quantity.value, a.newStock, userId, now);
      var sold := if a.movementType == Out then Some(updated.totalSold) else None;
      Outcome(Ok(Receipt(a.saved, a.newStock, sold)),
              products[req.productId := updated], log + [a.saved])
  }

  // ---------------------------------------------------------------------------------
  // What Post promises about one request

  /** A request lacking productId, type or a truthy quantity is refused with 400 before any lookup. */
  lemma PostMissingFields(products: map<string, Product>, log: seq<Movement>, req: MovementRequest, userId: string, now: int)
    ensures Post(products, log, req, userId, now).response == Err(MissingRequiredFields)
            <==> MissingFields(req)
  {
  }

  /** A complete request naming an unknown product is refused with 404. */
  lemma PostUnknownProduct(products: map<string, Product>, log: seq<Movement>, req: MovementRequest, userId: string, now: int)
    ensures Post(products, log, req, userId, now).response == Err(ProductNotFound)
            <==> !MissingFields(req) && req.productId !in products
  {
  }

  /** A type other than the four tags is refused once the product has been found. */
  lemma PostInvalidType(products: map<string, Product>, log: seq<Movement>, req: MovementRequest, userId: string, now: int)
    ensures Post(products, log, req, userId, now).response == Err(InvalidMovementType)
            <==> !MissingFields(req) && req.productId in products && ParseType(req.typeTag).None?
  {
  }

  /** Every rejection, whatever its cause, leaves the products and the log as they were. */
  lemma PostRejectionChangesNothing(products: map<string, Product>, log: seq<Movement>, req: MovementRequest, userId: string, now: int)
    ensures var o := Post(products, log, req, userId, now);
      o.response.Err? ==> o.products == products && o.log == log
  {
  }

  /**
   * A request succeeds exactly when its fields are present, the product exists, the type
   * is one of the four, a stock-out does not exceed the stock, and the schema accepts the
   * record (quantity at least 1, both snapshots non-negative, reason, reference, notes).
   */
  lemma PostSucceedsIff(products: map<string, Product>, log: seq<Movement>, req: MovementRequest, userId: string, now: int)
    ensures Post(products, log, req, userId, now).response.Ok? <==>
      && !MissingFields(req) && req.productId in products
      && ParseType(req.typeTag).Some?
      && var t, previous := ParseType(req.typeTag).value, products[req.productId].currentStock;
         NextStock(t, previous, req.quantity.value).Some?
         && InventoryMovementModel.SchemaValid(Candidate(log, req, t, previous, NextStock(t, previous, req.quantity.value).value, userId, now))
  {
  }

  /**
   * A success appends exactly one record, whose snapshot is the stock read and the stock
   * written; only the named product changes, and its new balance is never negative.
   */
  lemma PostAppendsOneRecord(products: map<string, Product>, log: seq<Movement>, req: MovementRequest, userId: string, now: int)
    ensures var o := Post(products, log, req, userId, now);
      o.response.Ok? ==>
        var m, id := o.response.value.movement, req.productId;
        && id in products && m.productId == id
        && o.log == log + [m] && m.id == |log|
        && m.previousStock == products[id].currentStock
        && id in o.products && m.newStock == o.products[id].currentStock
        && o.response.value.newStock == m.newStock
        && o.products == products[id := o.products[id]]
        && m.quantity >= 1 && m.newStock >= 0
        && NextStock(m.movementType, m.previousStock, m.quantity) == Some(m.newStock)
        && InventoryMovementModel.SchemaValid(m)
        && m.timestamp == now && m.userId == userId
  {
    var o := Post(products, log, req, userId, now);
    if o.response.Ok? {
      var t := ParseType(req.typeTag).value;
      var previous := products[req.productId].currentStock;
      var c := Candidate(log, req, t, previous, NextStock(t, previous, req.quantity.value).value, userId, now);
      SchemaValidIff(c);
      assert o.response.value.movement.(cost := c.cost) == c;
    }
  }

  /** Stock-in adds the quantity and stamps lastRestocked; totalSold and lastSold are untouched. */
  lemma PostStockIn(products: map<string, Product>, log: seq<Movement>, req: MovementRequest, userId: string, now: int)
    requires req.typeTag == "in"
    ensures var o := Post(products, log, req, userId, now);
      o.response.Ok? ==>
        var before, after := products[req.productId], o.products[req.productId];
        && after.currentStock == before.currentStock + req.quantity.value
        && after.lastRestocked == Some(now)
        && after.totalSold == before.totalSold && after.lastSold == before.lastSold
        && o.response.value.totalSold.None?
  {
  }

  /**
   * Stock-out asking for more than the stock is refused with "Insufficient stock" and
   * writes nothing; otherwise it subtracts the quantity, adds exactly the quantity to
   * totalSold and stamps lastSold.
   */
  lemma PostStockOut(products: map<string, Product>, log: seq<Movement>, req: MovementRequest, userId: string, now: int)
    requires req.typeTag == "out"
    ensures var o := Post(products, log, req, userId, now);
      && (!MissingFields(req) && req.productId in products
          && req.quantity.value > products[req.productId].currentStock
          ==> o.response == Err(InsufficientStock) && o.products == products && o.log == log)
      && (o.response.Ok? ==>
            var before, after := products[req.productId], o.products[req.productId];
            && after.currentStock == before.currentStock - req.quantity.value
            && after.totalSold == before.totalSold + req.quantity.value
            && after.lastSold == Some(now)
            && after.lastRestocked == before.lastRestocked
            && o.response.value.totalSold == Some(after.totalSold))
  {
  }

  /** Adjustment sets the balance to the quantity, whatever it was, and touches no bookkeeping. */
  lemma PostAdjustment(products: map<string, Product>, log: seq<Movement>, req: MovementRequest, userId: string, now: int)
    requires req.typeTag == "adjustment"
    ensures var o := Post(products, log, req, userId, now);
      o.response.Ok? ==>
        var before, after := products[req.productId], o.products[req.productId];
        && after.currentStock == req.quantity.value
        && after.lastRestocked == before.lastRestocked
        && after.totalSold == before.totalSold && after.lastSold == before.lastSold
  {
  }

  /**
   * Transfer subtracts without an insufficiency check, flooring the balance at zero,
   * and touches no bookkeeping.
   */
  lemma PostTransfer(products: map<string, Product>, log: seq<Movement>, req: MovementRequest, userId: string, now: int)
    requires req.typeTag == "transfer"
    ensures var o := Post(products, log, req, userId, now);
      && o.response != Err(InsufficientStock)
      && (o.response.Ok? ==>
            var before, after := products[req.productId], o.products[req.productId];
            && after.currentStock == Max(0, before.currentStock - req.quantity.value)
            && after.lastRestocked == before.lastRestocked
            && after.totalSold == before.totalSold && after.lastSold == before.lastSold)
  {
  }

  /**
   * A success writes only the balance, who updated the product and when, and the type's
   * bookkeeping fields; every other field of the product (name, SKU, prices, stock bounds,
   * status, creation time, ...) is kept.
   */
  lemma PostKeepsOtherFields(products: map<string, Product>, log: seq<Movement>, req: MovementRequest, userId: string, now: int)
    ensures var o := Post(products, log, req, userId, now);
      o.response.Ok? ==>
        var before, after := products[req.productId], o.products[req.productId];
        && after.updatedBy == Some(userId) && after.updatedAt == now
        && after.(currentStock := before.currentStock, updatedBy := before.updatedBy,
                  updatedAt := before.updatedAt, lastRestocked := before.lastRestocked,
                  totalSold := before.totalSold, lastSold := before.lastSold) == before
        && after.name == before.name && after.sku == before.sku
        && after.price == before.price && after.costPrice == before.costPrice
        && after.minimumStock == before.minimumStock && after.maximumStock == before.maximumStock
        && after.status == before.status && after.createdAt == before.createdAt
  {
  }

  /** A quantity below 1 that passes the truthiness check is refused by the record schema. */
  lemma PostNonPositiveQuantity(products: map<string, Product>, log: seq<Movement>, req: MovementRequest, userId: string, now: int)
    requires req.quantity.Some? && req.quantity.value < 1
    ensures var o := Post(products, log, req, userId, now);
      o.response.Err? && o.products == products && o.log == log
  {
    var o := Post(products, log, req, userId, now);
    if !MissingFields(req) && req.productId in products && ParseType(req.typeTag).Some? {
      var t := ParseType(req.typeTag).value;
      var previous := products[req.productId].currentStock;
      var next := NextStock(t, previous, req.quantity.value);
      if next.Some? {
        var c := Candidate(log, req, t, previous, next.value, userId, now);
        assert QuantityField in InventoryMovementModel.Violations(c);
      }
    }
  }

  /** A request that gets past every check before the save is refused with exactly the fields the schema names. */
  lemma PostRecordRejected(
    products: map<string, Product>, log: seq<Movement>, req: MovementRequest, userId: string, now: int,
    t: MovementType, newStock: int)
    requires !MissingFields(req) && req.productId in products && ParseType(req.typeTag) == Some(t)
    requires NextStock(t, products[req.productId].currentStock, req.quantity.value) == Some(newStock)
    ensures var c := Candidate(log, req, t, products[req.productId].currentStock, newStock, userId, now);
      !InventoryMovementModel.SchemaValid(c) ==>
        Post(products, log, req, userId, now).response == Err(RecordRejected(InventoryMovementModel.Violations(c)))
  {
  }

  /**
   * A well-formed stock-in whose only fault is its reason is refused with 500 naming the
   * reason alone, after the checks that come before the save have all passed.
   */
  lemma PostRefusedForReasonAlone(products: map<string, Product>, log: seq<Movement>, req: MovementRequest, userId: string, now: int)
    requires !MissingFields(req) && req.productId in products && req.productId != "" && userId != ""
    requires ParseType(req.typeTag) == Some(In) && req.quantity.value >= 1
    requires products[req.productId].currentStock >= 0
    requires !InventoryMovementModel.ReasonAllowed(req.reason)
    requires InventoryMovementModel.WithinLength(req.reference, InventoryMovementModel.MaxReferenceLength)
    requires InventoryMovementModel.WithinLength(req.notes, InventoryMovementModel.MaxNotesLength)
    ensures Post(products, log, req, userId, now).response == Err(RecordRejected({ReasonField}))
  {
    var previous := products[req.productId].currentStock;
    var c := Candidate(log, req, In, previous, previous + req.quantity.value, userId, now);
    InventoryMovementModel.OnlyReasonViolated(c);
    PostRecordRejected(products, log, req, userId, now, In, previous + req.quantity.value);
  }

  /**
   * The reason is passed through to the record as sent: a reason outside the twelve makes
   * every request that reaches the save fail with 500 naming the reason, and a missing or
   * listed reason is never the cause of a refusal.
   */
  lemma PostReasonChecked(products: map<string, Product>, log: seq<Movement>, req: MovementRequest, userId: string, now: int)
    ensures var o := Post(products, log, req, userId, now);
      o.response.Err? && o.response.error.RecordRejected? && ReasonField in o.response.error.fields
      <==> && !InventoryMovementModel.ReasonAllowed(req.reason)
           && !MissingFields(req) && req.productId in products && ParseType(req.typeTag).Some?
           && NextStock(ParseType(req.typeTag).value, products[req.productId].currentStock, req.quantity.value).Some?
  {
    var o := Post(products, log, req, userId, now);
    if MissingFields(req) {
      PostMissingFields(products, log, req, userId, now);
    } else if req.productId !in products {
      PostUnknownProduct(products, log, req, userId, now);
    } else if ParseType(req.typeTag).None? {
      PostInvalidType(products, log, req, userId, now);
    } else {
      var t := ParseType(req.typeTag).value;
      var previous := products[req.productId].currentStock;
      var next := NextStock(t, previous, req.quantity.value);
      if next.None? {
        assert o.response == Err(InsufficientStock);
      } else {
        var c := Candidate(log, req, t, previous, next.value, userId, now);
        assert c.reason == req.reason;
        assert ReasonField in InventoryMovementModel.Violations(c) <==> !InventoryMovementModel.ReasonAllowed(req.reason);
        if InventoryMovementModel.SchemaValid(c) {
          PostSucceedsIff(products, log, req, userId, now);
        } else {
          PostRecordRejected(products, log, req, userId, now, t, next.value);
        }
      }
    }
  }


  /**
   * Applying the same adjustment twice in a row: once the first succeeds, the second
   * succeeds too, and the balance is the quantity after both.
   */
  lemma AdjustmentIdempotent(products: map<string, Product>, log: seq<Movement>, req: MovementRequest, userId: string, now1: int, now2: int)
    requires req.typeTag == "adjustment"
    requires Post(products, log, req, userId, now1).response.Ok?
    ensures var o1 := Post(products, log, req, userId, now1);
      var o2 := Post(o1.products, o1.log, req, userId, now2);
      && o1.products[req.productId].currentStock == req.quantity.value
      && o2.response.Ok?
      && o2.products[req.productId].currentStock == req.quantity.value
  {
    var o1 := Post(products, log, req, userId, now1);
    var q := req.quantity.value;
    var c1 := Candidate(log, req, Adjustment, products[req.productId].currentStock, q, userId, now1);
    var c2 := Candidate(o1.log, req, Adjustment, q, q, userId, now2);
    PostSucceedsIff(products, log, req, userId, now1);
    SchemaValidIff(c1);
    SchemaValidIff(c2);
    assert req.productId in o1.products;
    PostSucceedsIff(o1.products, o1.log, req, userId, now2);
  }

  /** The log only grows, by at most one record per request. */
  lemma PostLogOnlyGrows(products: map<string, Product>, log: seq<Movement>, req: MovementRequest, userId: string, now: int)
    ensures var o := Post(products, log, req, userId, now);
      log <= o.log && |o.log| <= |log| + 1
  {
    PostRejectionChangesNothing(products, log, req, userId, now);
    PostAppendsOneRecord(products, log, req, userId, now);
  }

  function Request(productId: string, typeTag: string, quantity: int): MovementRequest {
    MovementRequest(productId, typeTag, Some(quantity), None, None, None)
  }

  /**
   * A product at 20: stock-in 50 gives 70 with the snapshot 20 to 70; stock-out 25 gives
   * 45; stock-out 1000 is refused and leaves 45; adjustment 10 gives 10; transfer 5 gives 5.
   */
  lemma LedgerScenario(p: Product)
    requires p.currentStock == 20
    ensures
      var o1 := Post(map["p1" := p], [], Request("p1", "in", 50), "u1", 1);
      && o1.response.Ok? && o1.response.value.newStock == 70
      && o1.response.value.movement.previousStock == 20 && o1.response.value.movement.newStock == 70
      && var o2 := Post(o1.products, o1.log, Request("p1", "out", 25), "u1", 2);
      && o2.response.Ok? && o2.products["p1"].currentStock == 45
      && var o3 := Post(o2.products, o2.log, Request("p1", "out", 1000), "u1", 3);
      && o3.response == Err(InsufficientStock) && o3.products["p1"].currentStock == 45
      && var o4 := Post(o3.products, o3.log, Request("p1", "adjustment", 10), "u1", 4);
      && o4.response.Ok? && o4.products["p1"].currentStock == 10
      && var o5 := Post(o4.products, o4.log, Request("p1", "transfer", 5), "u1", 5);
      && o5.response.Ok? && o5.products["p1"].currentStock == 5
      && |o5.log| == 4
  {
    var o1 := Post(map["p1" := p], [], Request("p1", "in", 50), "u1", 1);
    PostSucceedsIff(map["p1" := p], [], Request("p1", "in", 50), "u1", 1);
    SchemaValidIff(Candidate([], Request("p1", "in", 50), In, 20, 70, "u1", 1));
    var o2 := Post(o1.products, o1.log, Request("p1", "out", 25), "u1", 2);
    PostSucceedsIff(o1.products, o1.log, Request("p1", "out", 25), "u1", 2);
    SchemaValidIff(Candidate(o1.log, Request("p1", "out", 25), Out, 70, 45, "u1", 2));
    var o3 := Post(o2.products, o2.log, Request("p1", "out", 1000), "u1", 3);
    var o4 := Post(o3.products, o3.log, Request("p1", "adjustment", 10), "u1", 4);
    PostSucceedsIff(o3.products, o3.log, Request("p1", "adjustment", 10), "u1", 4);
    SchemaValidIff(Candidate(o3.log, Request("p1", "adjustment", 10), Adjustment, 45, 10, "u1", 4));
    var o5 := Post(o4.products, o4.log, Request("p1", "transfer", 5), "u1", 5);
    PostSucceedsIff(o4.products, o4.log, Request("p1", "transfer", 5), "u1", 5);
    SchemaValidIff(Candidate(o4.log, Request("p1", "transfer", 5), Transfer, 10, 5, "u1", 5));
  }

  // ---------------------------------------------------------------------------------
  // The ledger invariant: the balance is a replay of the product's movements

  /** The movements of one product, in the order they were saved. */
  function History(log: seq<Movement>, id: string): seq<Movement> {
    if log == [] then []
    else History(log[..|log| - 1], id) + (if log[|log| - 1].productId == id then [log[|log| - 1]] else [])
  }

  /**
   * Each record follows its type's rule, and each record's previousStock is the newStock
   * of the record before it: the snapshots form an unbroken audit trail.
   */
  ghost predicate Chained(h: seq<Movement>) {
    && (forall k :: 0 <= k < |h| ==>
          NextStock(h[k].movementType, h[k].previousStock, h[k].quantity) == Some(h[k].newStock))
    && (forall k :: 0 < k < |h| ==> h[k].previousStock == h[k - 1].newStock)
  }

  /** Folding the type rules over a product's movements, starting from a balance. */
  function Replay(start: int, h: seq<Movement>): Option<int>
    decreases |h|
  {
    if h == [] then Some(start)
    else match NextStock(h[0].movementType, start, h[0].quantity)
      case None => None
      case Some(next) => Replay(next, h[1..])
  }

  /**
   * One product's trail: a non-negative balance, a chained history, and a history that
   * leads from the balance the product was created with to its current balance.
   */
  ghost predicate ProductTrail(p: Product, seed: int, h: seq<Movement>) {
    && p.currentStock >= 0
    && Chained(h)
    && (h == [] ==> p.currentStock == seed)
    && (h != [] ==> h[0].previousStock == seed && h[|h| - 1].newStock == p.currentStock)
  }

  /** Every record is schema-valid and numbered by its position. */
  ghost predicate RecordsValid(log: seq<Movement>) {
    forall i :: 0 <= i < |log| ==> log[i].id == i && InventoryMovementModel.SchemaValid(log[i])
  }

  /** Every record refers to a known product. */
  ghost predicate RecordsKnown(products: map<string, Product>, log: seq<Movement>) {
    forall i :: 0 <= i < |log| ==> log[i].productId in products
  }

  /** The ledger invariant: valid records, and a trail per product. */
  ghost predicate LedgerInvariant(products: map<string, Product>, seeds: map<string, int>, log: seq<Movement>) {
    && seeds.Keys == products.Keys
    && RecordsValid(log)
    && RecordsKnown(products, log)
    && (forall id :: id in products ==> ProductTrail(products[id], seeds[id], History(log, id)))
  }

  lemma HistoryAppend(log: seq<Movement>, m: Movement, id: string)
    ensures History(log + [m], id) == History(log, id) + (if m.productId == id then [m] else [])
  {
    assert (log + [m])[..|log|] == log;
  }

  /** Appending a record that continues the product's trail extends the trail. */
  lemma {:induction false} TrailExtends(p: Product, seed: int, h: seq<Movement>, m: Movement, updated: Product)
    requires ProductTrail(p, seed, h)
    requires m.previousStock == p.currentStock
    requires NextStock(m.movementType, m.previousStock, m.quantity) == Some(m.newStock)
    requires updated.currentStock == m.newStock && m.newStock >= 0
    ensures ProductTrail(updated, seed, h + [m])
  {
    var h' := h + [m];
    forall j | 0 < j < |h'| ensures h'[j].previousStock == h'[j - 1].newStock {
      if j < |h| { assert h'[j] == h[j] && h'[j - 1] == h[j - 1]; }
    }
    forall k | 0 <= k < |h'|
      ensures NextStock(h'[k].movementType, h'[k].previousStock, h'[k].quantity) == Some(h'[k].newStock)
    {
      if k < |h| { assert h'[k] == h[k]; }
    }
  }

  /** Appending a valid record about a known product keeps every record valid and known. */
  lemma RecordsStep(products: map<string, Product>, log: seq<Movement>, m: Movement, updated: Product)
    requires RecordsValid(log) && RecordsKnown(products, log)
    requires m.productId in products && m.id == |log| && InventoryMovementModel.SchemaValid(m)
    ensures RecordsValid(log + [m]) && RecordsKnown(products[m.productId := updated], log + [m])
  {
    var log' := log + [m];
    forall i | 0 <= i < |log'| ensures log'[i].id == i && InventoryMovementModel.SchemaValid(log'[i]) {
      if i < |log| { assert log'[i] == log[i]; }
    }
    forall i | 0 <= i < |log'| ensures log'[i].productId in products[m.productId := updated] {
      if i < |log| { assert log'[i] == log[i]; }
    }
  }

  /** Appending a record that continues its product's trail keeps every product's trail. */
  lemma TrailsStep(
    products: map<string, Product>, seeds: map<string, int>, log: seq<Movement>,
    m: Movement, updated: Product)
    requires seeds.Keys == products.Keys
    requires forall id :: id in products ==> ProductTrail(products[id], seeds[id], History(log, id))
    requires m.productId in products && m.newStock >= 0
    requires m.previousStock == products[m.productId].currentStock
    requires NextStock(m.movementType, m.previousStock, m.quantity) == Some(m.newStock)
    requires updated.currentStock == m.newStock
    ensures var products' := products[m.productId := updated];
      forall id :: id in products' ==> ProductTrail(products'[id], seeds[id], History(log + [m], id))
  {
    var products' := products[m.productId := updated];
    forall k | k in products' ensures ProductTrail(products'[k], seeds[k], History(log + [m], k)) {
      HistoryAppend(log, m, k);
      if k == m.productId {
        TrailExtends(products[k], seeds[k], History(log, k), m, updated);
      } else {
        assert products'[k] == products[k];
      }
    }
  }

  /**
   * Saving one record that snapshots a product's balance and writing its new stock back
   * keeps the ledger invariant.
   */
  lemma StepPreservesInvariant(
    products: map<string, Product>, seeds: map<string, int>, log: seq<Movement>,
    m: Movement, updated: Product)
    requires LedgerInvariant(products, seeds, log)
    requires m.productId in products && m.id == |log| && InventoryMovementModel.SchemaValid(m)
    requires m.previousStock == products[m.productId].currentStock
    requires NextStock(m.movementType, m.previousStock, m.quantity) == Some(m.newStock)
    requires updated.currentStock == m.newStock
    ensures LedgerInvariant(products[m.productId := updated], seeds, log + [m])
  {
    SchemaValidIff(m);
    RecordsStep(products, log, m, updated);
    TrailsStep(products, seeds, log, m, updated);
    assert seeds.Keys == products[m.productId := updated].Keys;
  }

  /** Post keeps the ledger invariant. */
  lemma {:induction false} PostPreservesInvariant(
    products: map<string, Product>, seeds: map<string, int>, log: seq<Movement>,
    req: MovementRequest, userId: string, now: int)
    requires LedgerInvariant(products, seeds, log)
    ensures var o := Post(products, log, req, userId, now);
      LedgerInvariant(o.products, seeds, o.log)
  {
    var o := Post(products, log, req, userId, now);
    PostRejectionChangesNothing(products, log, req, userId, now);
    PostAppendsOneRecord(products, log, req, userId, now);
    if o.response.Ok? {
      var m := o.response.value.movement;
      StepPreservesInvariant(products, seeds, log, m, o.products[req.productId]);
    }
  }

  /** A chained history replays from its first snapshot to its last. */
  lemma {:induction false} ReplayChained(h: seq<Movement>)
    requires Chained(h) && h != []
    ensures Replay(h[0].previousStock, h) == Some(h[|h| - 1].newStock)
  {
    if |h| > 1 {
      var tail := h[1..];
      assert Chained(tail) by {
        forall k | 0 < k < |tail| ensures tail[k].previousStock == tail[k - 1].newStock {
          assert tail[k] == h[k + 1] && tail[k - 1] == h[k];
        }
      }
      ReplayChained(tail);
    }
  }

  /**
   * Under the ledger invariant every product's current stock is the result of folding the
   * type rules over its movements in the order they were saved, starting from the stock it
   * was created with.
   */
  lemma BalanceIsReplay(products: map<string, Product>, seeds: map<string, int>, log: seq<Movement>, id: string)
    requires LedgerInvariant(products, seeds, log) && id in products
    ensures Replay(seeds[id], History(log, id)) == Some(products[id].currentStock)
  {
    if History(log, id) != [] {
      ReplayChained(History(log, id));
    }
  }

  /** A product may be stored only under an unused id and an unused SKU (the unique index). */
  predicate KeyTaken(products: map<string, Product>, id: string, sku: string) {
    id in products || exists k :: k in products && products[k].sku == sku
  }

  /** Saving a new product: schema and pre-save hook first, then the unique-key check of the store. */
  function Insert(products: map<string, Product>, id: string, d: ProductDraft, now: int): Result<Product, ProductError> {
    match Create(d, now)
    case Err(e) => Err(e)
    case Ok(p) => if KeyTaken(products, id, p.sku) then Err(DuplicateKey) else Ok(p)
  }

  /**
   * The store accepts a product exactly when the schema and hook accept the draft and
   * neither its id nor its SKU is in use; the stored product is schema-valid.
   */
  lemma InsertSpec(products: map<string, Product>, id: string, d: ProductDraft, now: int)
    ensures Insert(products, id, d, now).Ok? <==>
      Create(d, now).Ok? && !KeyTaken(products, id, Create(d, now).value.sku)
    ensures Insert(products, id, d, now).Ok? ==>
      var p := Insert(products, id, d, now).value;
      && id !in products && (forall k :: k in products ==> products[k].sku != p.sku)
      && ProductModel.SchemaValid(p) && p.minimumStock < p.maximumStock
  {
    CreateSpec(d, now);
  }

  /** A new product under an unused id starts a trail of its own and leaves every other trail alone. */
  lemma {:induction false} AddProductPreservesInvariant(
    products: map<string, Product>, seeds: map<string, int>, log: seq<Movement>,
    id: string, p: Product)
    requires LedgerInvariant(products, seeds, log)
    requires id !in products && p.currentStock >= 0
    ensures LedgerInvariant(products[id := p], seeds[id := p.currentStock], log)
  {
    assert forall i :: 0 <= i < |log| ==> log[i].productId != id;
    HistoryOfUnknown(log, id);
    var products' := products[id := p];
    var seeds' := seeds[id := p.currentStock];
    assert RecordsKnown(products', log);
    forall k | k in products' ensures ProductTrail(products'[k], seeds'[k], History(log, k)) {
      if k != id { assert products'[k] == products[k] && seeds'[k] == seeds[k]; }
    }
    assert seeds'.Keys == products'.Keys;
    assert RecordsValid(log);
  }

  /** A product the store accepts starts a trail of its own at its initial stock. */
  lemma InsertPreservesInvariant(
    products: map<string, Product>, seeds: map<string, int>, log: seq<Movement>,
    id: string, d: ProductDraft, now: int)
    requires LedgerInvariant(products, seeds, log) && Insert(products, id, d, now).Ok?
    ensures var p := Insert(products, id, d, now).value;
      LedgerInvariant(products[id := p], seeds[id := p.currentStock], log)
  {
    InsertSpec(products, id, d, now);
    AddProductPreservesInvariant(products, seeds, log, id, Insert(products, id, d, now).value);
  }

  /** The stock ledger: the product store and the append-only movement log. */
  class Ledger {
    var products: map<string, Product>
    var log: seq<Movement>
    /** The balance each product was created with. */
    ghost var seeds: map<string, int>

    ghost predicate Valid()
      reads this
    {
      LedgerInvariant(products, seeds, log)
    }

    constructor ()
      ensures Valid() && products == map[] && log == []
    {
      products, log, seeds := map[], [], map[];
    }

    /** `new Product(...).save()`: creates a product if the schema, the hook and the keys allow it. */
    method CreateProduct(id: string, draft: ProductDraft, now: int) returns (r: Result<Product, ProductError>)
      requires Valid()
      modifies this
      ensures Valid()
      ensures r == Insert(old(products), id, draft, now)
      ensures r.Ok? ==> products == old(products)[id := r.value] && seeds == old(seeds)[id := r.value.currentStock]
      ensures r.Err? ==> products == old(products) && seeds == old(seeds)
      ensures log == old(log)
    {
      r := Insert(products, id, draft, now);
      if r.Ok? {
        InsertPreservesInvariant(products, seeds, log, id, draft, now);
        products := products[id := r.value];
        seeds := seeds[id := r.value.currentStock];
      }
    }

    /**
     * The checks of the handler: required fields, product lookup, the type's rule with
     * its insufficiency check, and the record's save; nothing in the ledger changes.
     */
    method Check(req: MovementRequest, userId: string, now: int) returns (d: Result<Accepted, LedgerError>)
      ensures d == Decide(products, log, req, userId, now)
    {
      if MissingFields(req) {
        return Err(MissingRequiredFields);
      }
      if req.productId !in products {
        return Err(ProductNotFound);
      }
      var previousStock := products[req.productId].currentStock;
      var quantity := req.quantity.value;
      var t: MovementType;
      var newStock: int;
      match ParseType(req.typeTag) {
        case None =>
          return Err(InvalidMovementType);
        case Some(parsed) =>
          t := parsed;
          match t {
            case In =>
              newStock := previousStock + quantity;
            case Out =>
              newStock := Max(0, previousStock - quantity);
              if previousStock < quantity {
                return Err(InsufficientStock);
              }
            case Adjustment =>
              newStock := quantity;
            case Transfer =>
              newStock := Max(0, previousStock - quantity);
          }
      }
      var movement := NewMovement(|log|, req.productId, t, quantity, previousStock, newStock,
                                  req.reason, req.reference, req.notes, userId, now);
      var saved := Save(movement);
      if saved.Err? {
        return Err(RecordRejected(saved.error));
      }
      d := Ok(Accepted(t, newStock, saved.value));
    }

    /**
     * The POST handler applied to the ledger: the checks and the record's save, then
     * the product's balance and bookkeeping; the response and the new stores are those
     * of `Post`, and the log only grows.
     */
    method ApplyMovement(req: MovementRequest, userId: string, now: int) returns (res: Result<Receipt, LedgerError>)
      requires Valid()
      modifies this
      ensures seeds == old(seeds)
      ensures old(log) <= log
      ensures var o := Post(old(products), old(log), req, userId, now);
        res == o.response && products == o.products && log == o.log
      ensures Valid()
    {
      var decision := Check(req, userId, now);
      if decision.Err? {
        return Err(decision.error);
      }
      var accepted := decision.value;
      var quantity := req.quantity.value;
      var product := products[req.productId];
      log := log + [accepted.saved];
      var update := product.(currentStock := accepted.newStock, updatedBy := Some(userId), updatedAt := now);
      var totalSold: Option<int> := None;
      if accepted.movementType == In {
        update := update.(lastRestocked := Some(now));
      } else if accepted.movementType == Out {
        update := update.(totalSold := product.totalSold + quantity, lastSold := Some(now));
        totalSold := Some(update.totalSold);
      }
      assert update == Bookkeep(product, accepted.movementType, quantity, accepted.newStock, userId, now);
      products := products[req.productId := update];
      res := Ok(Receipt(accepted.saved, accepted.newStock, totalSold));
      StepPreservesInvariant(old(products), seeds, old(log), accepted.saved, update);
    }
  }

  lemma {:induction false} HistoryOfUnknown(log: seq<Movement>, id: string)
    requires forall i :: 0 <= i < |log| ==> log[i].productId != id
    ensures History(log, id) == []
  {
    if log != [] {
      HistoryOfUnknown(log[..|log| - 1], id);
    }
  }
}
