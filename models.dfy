/** The shipment record (shipments/models.py): its fields, the two choice tables, the
    derived values and the record-table used by the seeding routine and the admin.
    Dates are day numbers, money is integer cents, and "today" is a parameter. */
module Models {
  import opened Text

  type Day = int
  type Cents = int

  /** The values a `freight_status` column is meant to hold. */
  datatype Freight = FreightPaid | FreightNotPaid | FreightPending

  /** The values a `supervisor_status` column is meant to hold. */
  datatype Supervisor = Pending | Approved | Rejected | InProgress | Completed

  /** A database row. The two status columns hold raw strings: choices are checked by
      forms, not by the database, so a bulk update or a script can store anything. */
  datatype Shipment = Shipment(
    blNumber: string,
    containerNo: string,
    chassisNo: Option<string>,
    shippingLine: string,
    consignee: string,
    shipper: string,
    eta: Day,
    gateOutDate: Option<Day>,
    freeDays: int,
    demurrageDays: int,
    dutyStatus: bool,
    penaltyDuty: Cents,
    extraCharges: Cents,
    freightPayment: Cents,
    freightStatus: string,
    towingCharge: Cents,
    towingDestination: string,
    towingCarOwner: string,
    towingStatus: bool,
    description: string,
    itemQuantity: int,
    agentAssigned: string,
    supervisorStatus: string)

  // ---- choice tables ----

  function FreightCode(f: Freight): string {
    match f
    case FreightPaid => "paid"
    case FreightNotPaid => "not_paid"
    case FreightPending => "pending"
  }

  function FreightLabel(f: Freight): string {
    match f
    case FreightPaid => "Paid"
    case FreightNotPaid => "Not Paid"
    case FreightPending => "Pending"
  }

  /** The choice a stored freight value names, if any. */
  function FreightChoice(raw: string): (r: Option<Freight>)
    ensures r.Some? ==> FreightCode(r.value) == raw
    ensures (forall f :: FreightCode(f) != raw) ==> r.None?
  {
    if raw == "paid" then Some(FreightPaid)
    else if raw == "not_paid" then Some(FreightNotPaid)
    else if raw == "pending" then Some(FreightPending)
    else None
  }

  lemma FreightChoiceRoundTrip(f: Freight)
    ensures FreightChoice(FreightCode(f)) == Some(f)
  {
  }

  function SupervisorCode(s: Supervisor): string {
    match s
    case Pending => "pending"
    case Approved => "approved"
    case Rejected => "rejected"
    case InProgress => "in_progress"
    case Completed => "completed"
  }

  function SupervisorLabel(s: Supervisor): string {
    match s
    case Pending => "Pending Review"
    case Approved => "Approved"
    case Rejected => "Rejected"
    case InProgress => "In Progress"
    case Completed => "Completed"
  }

  function SupervisorChoice(raw: string): (r: Option<Supervisor>)
    ensures r.Some? ==> SupervisorCode(r.value) == raw
    ensures (forall s :: SupervisorCode(s) != raw) ==> r.None?
  {
    if raw == "pending" then Some(Pending)
    else if raw == "approved" then Some(Approved)
    else if raw == "rejected" then Some(Rejected)
    else if raw == "in_progress" then Some(InProgress)
    else if raw == "completed" then Some(Completed)
    else None
  }

  lemma SupervisorChoiceRoundTrip(s: Supervisor)
    ensures SupervisorChoice(SupervisorCode(s)) == Some(s)
  {
  }

  /** Django's `get_freight_status_display()`: the label of a known choice, otherwise
      the stored value itself. */
  function FreightDisplay(raw: string): (r: string)
    ensures raw == "paid" ==> r == "Paid"
    ensures raw == "not_paid" ==> r == "Not Paid"
    ensures raw == "pending" ==> r == "Pending"
    ensures FreightChoice(raw).None? ==> r == raw
  {
    match FreightChoice(raw)
    case Some(f) => FreightLabel(f)
    case None => raw
  }

  /** Django's `get_supervisor_status_display()`. */
  function SupervisorDisplay(raw: string): (r: string)
    ensures raw == "pending" ==> r == "Pending Review"
    ensures raw == "approved" ==> r == "Approved"
    ensures raw == "rejected" ==> r == "Rejected"
    ensures raw == "in_progress" ==> r == "In Progress"
    ensures raw == "completed" ==> r == "Completed"
    ensures SupervisorChoice(raw).None? ==> r == raw
  {
    match SupervisorChoice(raw)
    case Some(s) => SupervisorLabel(s)
    case None => raw
  }

  /** Both status columns default to `pending`, a valid choice of each table. */
  const DefaultFreightStatus := "pending"
  const DefaultSupervisorStatus := "pending"

  lemma DefaultsAreChoices()
    ensures FreightChoice(DefaultFreightStatus) == Some(FreightPending)
    ensures SupervisorChoice(DefaultSupervisorStatus) == Some(Pending)
    ensures FreightDisplay(DefaultFreightStatus) == "Pending"
    ensures SupervisorDisplay(DefaultSupervisorStatus) == "Pending Review"
  {
  }

  // ---- validity of a record ----

  /** Every amount below this, in cents, in magnitude fits a
      `DecimalField(max_digits=12, decimal_places=2)`: ten digits before the point. */
  const Limit12Digits := 1_000_000_000_000

  /** The same for `max_digits=10`: eight digits before the point. */
  const Limit10Digits := 10_000_000_000

  predicate CentsFit(c: Cents, limit: int) {
    -limit < c < limit
  }

  /** What the field declarations demand of a record: required text is non-blank,
      every `max_length` is met, the choices are respected, the validators hold and the
      decimals fit their digits. */
  predicate ValidRecord(s: Shipment) {
    && s.blNumber != [] && |s.blNumber| <= 50
    && s.containerNo != [] && |s.containerNo| <= 50
    && (s.chassisNo.Some? ==> |s.chassisNo.value| <= 50)
    && s.shippingLine != [] && |s.shippingLine| <= 100
    && s.consignee != [] && |s.consignee| <= 200
    && s.shipper != [] && |s.shipper| <= 200
    && s.freeDays >= 0
    && s.demurrageDays >= 0
    && s.itemQuantity >= 1
    && CentsFit(s.penaltyDuty, Limit12Digits)
    && CentsFit(s.extraCharges, Limit12Digits)
    && CentsFit(s.freightPayment, Limit12Digits)
    && CentsFit(s.towingCharge, Limit10Digits)
    && FreightChoice(s.freightStatus).Some?
    && |s.towingDestination| <= 200
    && |s.towingCarOwner| <= 200
    && |s.agentAssigned| <= 100
    && SupervisorChoice(s.supervisorStatus).Some?
  }

  /** `bl_number` is unique within the table (a case-sensitive database constraint). */
  predicate UniqueBl(rows: seq<Shipment>) {
    forall i, j :: 0 <= i < j < |rows| ==> rows[i].blNumber != rows[j].blNumber
  }

  predicate ValidTable(rows: seq<Shipment>) {
    UniqueBl(rows) && forall i :: 0 <= i < |rows| ==> ValidRecord(rows[i])
  }

  // ---- derived values ----

  function DutyStatusDisplay(s: Shipment): (r: string)
    ensures r == "Paid" <==> s.dutyStatus
    ensures r == "Not Paid" <==> !s.dutyStatus
  {
    if s.dutyStatus then "Paid" else "Not Paid"
  }

  function TowingStatusDisplay(s: Shipment): (r: string)
    ensures r == "Paid" <==> s.towingStatus
    ensures r == "Not Paid" <==> !s.towingStatus
  {
    if s.towingStatus then "Paid" else "Not Paid"
  }

  /** A shipment is overdue when it has not left the port and today is strictly past
      its ETA. */
  predicate IsOverdue(s: Shipment, today: Day) {
    s.gateOutDate.None? && today > s.eta
  }

  /** Whole days past the ETA of an overdue shipment; 0 for one that is not. */
  function DaysOverdue(s: Shipment, today: Day): (r: int)
    ensures r >= 0
    ensures r == 0 <==> !IsOverdue(s, today)
    ensures IsOverdue(s, today) ==> r >= 1 && s.eta + r == today
    ensures s.gateOutDate.Some? ==> r == 0
  {
    if !IsOverdue(s, today) then 0 else today - s.eta
  }

  /** A delivered shipment is never overdue, however late it was. */
  lemma DeliveredNeverOverdue(s: Shipment, today: Day)
    requires s.gateOutDate.Some?
    ensures !IsOverdue(s, today) && DaysOverdue(s, today) == 0
  {
  }

  /** The charges incurred at the port; on a valid record below 2 * 10^12 cents. */
  function TotalPortCharges(s: Shipment): (r: Cents)
    ensures r == s.penaltyDuty + s.extraCharges
    ensures ValidRecord(s) ==> -2 * Limit12Digits < r < 2 * Limit12Digits
  {
    s.penaltyDuty + s.extraCharges
  }

  /** The sum of all four charges; on a valid record it is below 4 * 10^12 cents, so
      the 28-digit decimal arithmetic that computes it is exact. */
  function TotalCharges(s: Shipment): (r: Cents)
    ensures r == TotalPortCharges(s) + s.towingCharge + s.freightPayment
    ensures ValidRecord(s) ==> -4 * Limit12Digits < r < 4 * Limit12Digits
  {
    s.penaltyDuty + s.extraCharges + s.towingCharge + s.freightPayment
  }

  // ---- the record table ----

  /** The BL numbers present in the table. */
  function BlNumbers(rows: seq<Shipment>): set<string> {
    set i | 0 <= i < |rows| :: rows[i].blNumber
  }

  /** `get_or_create(bl_number=bl, defaults=d)` as a function on the table: the row
      with that BL number stays as it is; without one, the defaults are appended with
      `bl` as their BL number. Django lets a `bl_number` in `defaults` override the
      lookup value instead; the two agree whenever, as at every call here, the defaults
      carry that BL number. */
  function InsertIfAbsent(rows: seq<Shipment>, bl: string, defaults: Shipment): (r: seq<Shipment>)
    ensures bl in BlNumbers(rows) ==> r == rows
    ensures bl !in BlNumbers(rows) ==> r == rows + [defaults.(blNumber := bl)]
  {
    if bl in BlNumbers(rows) then rows else rows + [defaults.(blNumber := bl)]
  }

  lemma InsertIfAbsentKeepsUnique(rows: seq<Shipment>, bl: string, defaults: Shipment)
    requires UniqueBl(rows)
    ensures UniqueBl(InsertIfAbsent(rows, bl, defaults))
    ensures bl in BlNumbers(InsertIfAbsent(rows, bl, defaults))
    ensures BlNumbers(InsertIfAbsent(rows, bl, defaults)) == BlNumbers(rows) + {bl}
  {
    var r := InsertIfAbsent(rows, bl, defaults);
    if bl !in BlNumbers(rows) {
      assert r[|rows|].blNumber == bl;
      assert forall i :: 0 <= i < |rows| ==> r[i] == rows[i];
    }
  }

  /** The `Shipment.objects` manager, as far as this model uses it: a table of rows. */
  class ShipmentTable {
    var rows: seq<Shipment>

    ghost predicate Valid()
      reads this
    {
      UniqueBl(rows)
    }

    constructor (initial: seq<Shipment>)
      requires UniqueBl(initial)
      ensures Valid() && rows == initial
    {
      rows := initial;
    }

    /** `get_or_create(bl_number=bl, defaults=d)`: looks the BL number up exactly; an
        existing row is returned untouched, otherwise the defaults are inserted. */
    method GetOrCreate(bl: string, defaults: Shipment) returns (s: Shipment, created: bool)
      requires Valid()
      modifies this
      ensures Valid()
      ensures created <==> bl !in BlNumbers(old(rows))
      ensures rows == InsertIfAbsent(old(rows), bl, defaults)
      ensures s in rows && s.blNumber == bl
      ensures !created ==> s in old(rows)
    {
      if bl in BlNumbers(rows) {
        s :| s in rows && s.blNumber == bl;
        created := false;
      } else {
        InsertIfAbsentKeepsUnique(rows, bl, defaults);
        s := defaults.(blNumber := bl);
        rows := rows + [s];
        created := true;
      }
    }
  }
}
