/**
 * The InventoryMovement document: one immutable entry of the stock ledger, the schema
 * constraints Mongoose checks when it is saved, and the pre-save hook that prices it.
 * Money amounts are whole numbers of the smallest currency unit.
 */
module InventoryMovementModel {
  import opened Wrappers
  import JsText

  /** The four movement kinds, tagged 'in', 'out', 'transfer' and 'adjustment'. */
  datatype MovementType = In | Out | Transfer | Adjustment

  function TypeTag(t: MovementType): string {
    match t
    case In => "in"
    case Out => "out"
    case Transfer => "transfer"
    case Adjustment => "adjustment"
  }

  /** The schema's `type` enum: only the four tags denote a movement type. */
  function ParseType(tag: string): (r: Option<MovementType>)
    ensures r.Some? ==> TypeTag(r.value) == tag
  {
    if tag == "in" then Some(In)
    else if tag == "out" then Some(Out)
    else if tag == "transfer" then Some(Transfer)
    else if tag == "adjustment" then Some(Adjustment)
    else None
  }

  /** Every movement type is recognised from its own tag. */
  lemma ParseTypeTag(t: MovementType)
    ensures ParseType(TypeTag(t)) == Some(t)
  {
  }

  /** The twelve reasons the schema admits. */
  const Reasons: seq<string> := [
    "purchase", "sale", "return", "damaged", "expired", "theft", "count_adjustment",
    "transfer_in", "transfer_out", "production", "consumption", "other"
  ]

  const MaxReferenceLength := 100
  const MaxNotesLength := 500

  /** The `cost` sub-object; `currency` defaults to "USD". */
  datatype Cost = Cost(unitCost: Option<int>, totalCost: Option<int>, currency: string)

  const DefaultCost := Cost(None, None, "USD")

  datatype Movement = Movement(
    id: nat,
    productId: string,
    movementType: MovementType,
    quantity: int,
    previousStock: int,
    newStock: int,
    reason: Option<string>,
    reference: Option<string>,
    notes: Option<string>,
    userId: string,
    timestamp: int,
    cost: Cost)

  /** The schema paths whose validators can reject a movement. */
  datatype MovementField =
    | ProductIdField | QuantityField | PreviousStockField | NewStockField
    | ReasonField | ReferenceField | NotesField | UserIdField

  /**
   * `new InventoryMovement({...})`: casting trims `reference`, `timestamp` defaults to
   * the creation time and `cost` to its defaults.
   */
  function NewMovement(
    id: nat, productId: string, movementType: MovementType, quantity: int,
    previousStock: int, newStock: int, reason: Option<string>, reference: Option<string>,
    notes: Option<string>, userId: string, now: int): (m: Movement)
    ensures m.reference.None? <==> reference.None?
    ensures m.reference.Some? ==> m.reference.value == JsText.Trim(reference.value)
    ensures m.timestamp == now && m.cost == DefaultCost
  {
    var trimmed := match reference
      case Some(r) => Some(JsText.Trim(r))
      case None => None;
    Movement(id, productId, movementType, quantity, previousStock, newStock, reason,
             trimmed, notes, userId, now, DefaultCost)
  }

  predicate ReasonAllowed(reason: Option<string>) {
    reason.None? || reason.value in Reasons
  }

  predicate WithinLength(s: Option<string>, max: nat) {
    s.None? || |s.value| <= max
  }

  /** The set of schema paths whose validators fail (required, min, enum, maxlength). */
  function Violations(m: Movement): set<MovementField> {
    (if m.productId == "" then {ProductIdField} else {})
    + (if m.quantity < 1 then {QuantityField} else {})
    + (if m.previousStock < 0 then {PreviousStockField} else {})
    + (if m.newStock < 0 then {NewStockField} else {})
    + (if !ReasonAllowed(m.reason) then {ReasonField} else {})
    + (if !WithinLength(m.reference, MaxReferenceLength) then {ReferenceField} else {})
    + (if !WithinLength(m.notes, MaxNotesLength) then {NotesField} else {})
    + (if m.userId == "" then {UserIdField} else {})
  }

  /** A movement the schema accepts. */
  predicate SchemaValid(m: Movement) {
    Violations(m) == {}
  }

  /**
   * The schema accepts a movement exactly when its quantity is at least 1, both stock
   * snapshots are non-negative, the reason (if any) is one of the twelve, the reference is
   * at most 100 and the notes at most 500 characters, and the references are present.
   */
  lemma SchemaValidIff(m: Movement)
    ensures SchemaValid(m) <==>
      && m.productId != "" && m.userId != ""
      && m.quantity >= 1 && m.previousStock >= 0 && m.newStock >= 0
      && (m.reason.Some? ==> m.reason.value in Reasons)
      && (m.reference.Some? ==> |m.reference.value| <= 100)
      && (m.notes.Some? ==> |m.notes.value| <= 500)
  {
    if !SchemaValid(m) {
      var f :| f in Violations(m);
    }
  }

  /** A record whose only fault is its reason is refused naming the reason alone. */
  lemma OnlyReasonViolated(m: Movement)
    requires m.productId != "" && m.userId != "" && m.quantity >= 1 && m.previousStock >= 0 && m.newStock >= 0
    requires WithinLength(m.reference, MaxReferenceLength) && WithinLength(m.notes, MaxNotesLength)
    requires !ReasonAllowed(m.reason)
    ensures Violations(m) == {ReasonField}
  {
  }

  /**
   * Pre-save hook: when `cost.unitCost` is present and non-zero, `totalCost` becomes
   * unitCost * quantity; otherwise the document is left as it is.
   */
  function PriceOnSave(m: Movement): (r: Movement)
    ensures m.cost.unitCost.Some? && m.cost.unitCost.value != 0 ==>
              r == m.(cost := m.cost.(totalCost := Some(m.cost.unitCost.value * m.quantity)))
    ensures (m.cost.unitCost.None? || m.cost.unitCost.value == 0) ==> r == m
  {
    match m.cost.unitCost
    case Some(u) =>
      if u != 0 then m.(cost := m.cost.(totalCost := Some(u * m.quantity))) else m
    case None => m
  }

  /**
   * `movement.save()`: validation runs first and rejects with every failing path;
   * a valid document then goes through the pre-save hook and is stored.
   */
  function Save(m: Movement): (r: Result<Movement, set<MovementField>>)
    ensures r.Ok? <==> SchemaValid(m)
    ensures r.Err? ==> r.error != {}
    ensures r.Ok? ==> SchemaValid(r.value) && r.value.(cost := m.cost) == m
    ensures r.Ok? ==> r.value.cost.currency == m.cost.currency && r.value.cost.unitCost == m.cost.unitCost
  {
    var v := Violations(m);
    if v == {} then Ok(PriceOnSave(m)) else Err(v)
  }

  /**
   * Saving changes nothing but the cost block, so the stored record keeps the snapshot
   * it was built with, and that snapshot satisfies the schema's bounds.
   */
  lemma SavedRecordKeepsSnapshot(m: Movement)
    requires Save(m).Ok?
    ensures var r := Save(m).value;
      && r.(cost := m.cost) == m
      && r.quantity >= 1 && r.previousStock >= 0 && r.newStock >= 0
  {
    SchemaValidIff(m);
  }
}
