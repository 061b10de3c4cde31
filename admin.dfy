/** The administrative interface (shipments/admin.py): the coloured list columns, the
    export columns, the two bulk actions and the upload rule for attachments. The
    markup around the texts is not modelled: a column is a colour and a text. */
module Admin {
  import opened Text
  import opened Models

  datatype Badge = Badge(color: string, text: string)

  const PaidText := "\U{2713} Paid"
  const NotPaidText := "\U{2717} Not Paid"
  const OnTimeText := "\U{2713} On time"
  const OverduePrefix := "\U{26A0}\U{FE0F} "
  const OverdueSuffix := " days overdue"

  function PaidBadge(flag: bool): (b: Badge)
    ensures b.text == PaidText <==> flag
    ensures b.text == NotPaidText <==> !flag
    ensures b.color == (if flag then "green" else "red")
  {
    if flag then Badge("green", PaidText) else Badge("red", NotPaidText)
  }

  /** `colored_duty_status`. */
  function ColoredDutyStatus(s: Shipment): (b: Badge)
    ensures b.text == PaidText <==> s.dutyStatus
    ensures b.text == NotPaidText <==> !s.dutyStatus
    ensures b == PaidBadge(s.dutyStatus)
    ensures b.color == (if s.dutyStatus then "green" else "red")
  {
    PaidBadge(s.dutyStatus)
  }

  /** `colored_towing_status`. */
  function ColoredTowingStatus(s: Shipment): (b: Badge)
    ensures b.text == PaidText <==> s.towingStatus
    ensures b.text == NotPaidText <==> !s.towingStatus
    ensures b == PaidBadge(s.towingStatus)
    ensures b.color == (if s.towingStatus then "green" else "red")
  {
    PaidBadge(s.towingStatus)
  }

  /** The `colors.get(obj.freight_status, 'black')` lookup. */
  function FreightColor(raw: string): (c: string)
    ensures FreightChoice(raw) == Some(FreightPaid) <==> c == "green"
    ensures FreightChoice(raw) == Some(FreightNotPaid) <==> c == "red"
    ensures FreightChoice(raw) == Some(FreightPending) <==> c == "orange"
    ensures FreightChoice(raw).None? <==> c == "black"
  {
    match FreightChoice(raw)
    case Some(FreightPaid) => "green"
    case Some(FreightNotPaid) => "red"
    case Some(FreightPending) => "orange"
    case None => "black"
  }

  /** `colored_freight_status`: the colour of the stored value and its display label. */
  function ColoredFreightStatus(s: Shipment): (b: Badge)
    ensures b.color == FreightColor(s.freightStatus)
    ensures b.text == FreightDisplay(s.freightStatus)
  {
    Badge(FreightColor(s.freightStatus), FreightDisplay(s.freightStatus))
  }

  /** `overdue_indicator`: the number of days overdue, in red, for an overdue shipment;
      the green on-time mark otherwise. The number shown reads back as the count. */
  function OverdueIndicator(s: Shipment, today: Day): (b: Badge)
    ensures !IsOverdue(s, today) <==> b == Badge("green", OnTimeText)
    ensures IsOverdue(s, today) ==> b.color == "red"
    ensures IsOverdue(s, today) ==>
              exists digits :: (b.text == OverduePrefix + digits + OverdueSuffix
                                && (forall i :: 0 <= i < |digits| ==> '0' <= digits[i] <= '9')
                                && digits != [] && DecimalValue(digits) == DaysOverdue(s, today))
  {
    if IsOverdue(s, today) then
      var n := DaysOverdue(s, today);
      NatToStringRoundTrip(n);
      Badge("red", OverduePrefix + NatToString(n) + OverdueSuffix)
    else
      Badge("green", OnTimeText)
  }

  /** The computed columns of an exported row (`ShipmentResource.dehydrate_*`). */
  datatype ExportColumns = ExportColumns(
    dutyStatusDisplay: string,
    towingStatusDisplay: string,
    freightStatusDisplay: string,
    totalCharges: Cents)

  function ExportedColumns(s: Shipment): (e: ExportColumns)
    ensures e.dutyStatusDisplay == "Paid" <==> s.dutyStatus
    ensures e.towingStatusDisplay == "Paid" <==> s.towingStatus
    ensures e.dutyStatusDisplay == "Not Paid" <==> !s.dutyStatus
    ensures e.towingStatusDisplay == "Not Paid" <==> !s.towingStatus
    ensures e.dutyStatusDisplay == DutyStatusDisplay(s) && e.towingStatusDisplay == TowingStatusDisplay(s)
    ensures e.freightStatusDisplay == FreightDisplay(s.freightStatus)
    ensures e.totalCharges == s.penaltyDuty + s.extraCharges + s.towingCharge + s.freightPayment
  {
    ExportColumns(DutyStatusDisplay(s), TowingStatusDisplay(s), FreightDisplay(s.freightStatus), TotalCharges(s))
  }

  // ---- bulk actions ----

  /** How many of the positions `0 .. n-1` are selected. */
  function SelectedCount(n: nat, selected: set<nat>): nat {
    if n == 0 then 0 else SelectedCount(n - 1, selected) + (if n - 1 in selected then 1 else 0)
  }

  function SelectedBelow(n: nat, selected: set<nat>): set<nat> {
    set k | k in selected && k < n
  }

  lemma {:induction false} SelectedCountIsSize(n: nat, selected: set<nat>)
    ensures SelectedCount(n, selected) == |SelectedBelow(n, selected)|
  {
    if n > 0 {
      SelectedCountIsSize(n - 1, selected);
      if n - 1 in selected {
        assert SelectedBelow(n, selected) == SelectedBelow(n - 1, selected) + {n - 1};
      } else {
        assert SelectedBelow(n, selected) == SelectedBelow(n - 1, selected);
      }
    }
  }

  /** When every selected position holds a row, the count is the size of the selection. */
  lemma SelectedCountOfSelection(n: nat, selected: set<nat>)
    requires forall k :: k in selected ==> k < n
    ensures SelectedCount(n, selected) == |selected|
  {
    SelectedCountIsSize(n, selected);
    assert SelectedBelow(n, selected) == selected;
  }

  /** The table after `queryset.update(duty_status=True)` on the selected positions. */
  function DutyPaidRows(rows: seq<Shipment>, selected: set<nat>): (r: seq<Shipment>)
    ensures |r| == |rows|
    ensures forall i :: 0 <= i < |rows| && i in selected ==>
              r[i].dutyStatus && r[i].(dutyStatus := rows[i].dutyStatus) == rows[i]
    ensures forall i :: 0 <= i < |rows| && i !in selected ==> r[i] == rows[i]
  {
    seq(|rows|, i requires 0 <= i < |rows| => if i in selected then rows[i].(dutyStatus := true) else rows[i])
  }

  /** The table after `queryset.update(freight_status='paid')`. */
  function FreightPaidRows(rows: seq<Shipment>, selected: set<nat>): (r: seq<Shipment>)
    ensures |r| == |rows|
    ensures forall i :: 0 <= i < |rows| && i in selected ==>
              FreightChoice(r[i].freightStatus) == Some(FreightPaid)
              && r[i].(freightStatus := rows[i].freightStatus) == rows[i]
    ensures forall i :: 0 <= i < |rows| && i !in selected ==> r[i] == rows[i]
  {
    seq(|rows|, i requires 0 <= i < |rows| =>
      if i in selected then rows[i].(freightStatus := "paid") else rows[i])
  }

  /** Both bulk actions keep the table valid and keep its BL numbers. */
  lemma {:induction false} DutyPaidKeepsValid(rows: seq<Shipment>, selected: set<nat>)
    requires ValidTable(rows)
    ensures ValidTable(DutyPaidRows(rows, selected))
    ensures BlNumbers(DutyPaidRows(rows, selected)) == BlNumbers(rows)
  {
    var r := DutyPaidRows(rows, selected);
    assert forall i :: 0 <= i < |rows| ==> r[i].blNumber == rows[i].blNumber;
    assert forall i :: 0 <= i < |rows| ==> ValidRecord(r[i]) by {
      forall i | 0 <= i < |rows| ensures ValidRecord(r[i]) {
        assert ValidRecord(rows[i]);
      }
    }
  }

  lemma {:induction false} FreightPaidKeepsValid(rows: seq<Shipment>, selected: set<nat>)
    requires ValidTable(rows)
    ensures ValidTable(FreightPaidRows(rows, selected))
    ensures BlNumbers(FreightPaidRows(rows, selected)) == BlNumbers(rows)
  {
    var r := FreightPaidRows(rows, selected);
    assert forall i :: 0 <= i < |rows| ==> r[i].blNumber == rows[i].blNumber;
    assert forall i :: 0 <= i < |rows| ==> ValidRecord(r[i]) by {
      forall i | 0 <= i < |rows| ensures ValidRecord(r[i]) {
        assert ValidRecord(rows[i]);
      }
    }
  }

  lemma DutyPaidKeepsUnique(rows: seq<Shipment>, selected: set<nat>)
    requires UniqueBl(rows)
    ensures UniqueBl(DutyPaidRows(rows, selected))
  {
    var r := DutyPaidRows(rows, selected);
    assert forall i :: 0 <= i < |rows| ==> r[i].blNumber == rows[i].blNumber;
  }

  lemma FreightPaidKeepsUnique(rows: seq<Shipment>, selected: set<nat>)
    requires UniqueBl(rows)
    ensures UniqueBl(FreightPaidRows(rows, selected))
  {
    var r := FreightPaidRows(rows, selected);
    assert forall i :: 0 <= i < |rows| ==> r[i].blNumber == rows[i].blNumber;
  }

  /** Repeating a bulk action changes nothing more. */
  lemma DutyPaidIdempotent(rows: seq<Shipment>, selected: set<nat>)
    ensures DutyPaidRows(DutyPaidRows(rows, selected), selected) == DutyPaidRows(rows, selected)
  {
    var once := DutyPaidRows(rows, selected);
    var twice := DutyPaidRows(once, selected);
    assert forall i :: 0 <= i < |rows| ==> twice[i] == once[i];
  }

  lemma FreightPaidIdempotent(rows: seq<Shipment>, selected: set<nat>)
    ensures FreightPaidRows(FreightPaidRows(rows, selected), selected) == FreightPaidRows(rows, selected)
  {
    var once := FreightPaidRows(rows, selected);
    var twice := FreightPaidRows(once, selected);
    assert forall i :: 0 <= i < |rows| ==> twice[i] == once[i];
  }

  /** After the freight action every selected row shows a green "Paid". */
  lemma FreightPaidShowsPaid(rows: seq<Shipment>, selected: set<nat>, i: nat)
    requires i < |rows| && i in selected
    ensures ColoredFreightStatus(FreightPaidRows(rows, selected)[i]) == Badge("green", "Paid")
  {
  }

  /** `mark_duty_paid`: a single `update` of the selected rows; `updated` is the
      number of rows it matched. */
  method MarkDutyPaid(table: ShipmentTable, selected: set<nat>) returns (updated: nat)
    requires table.Valid()
    modifies table
    ensures table.Valid()
    ensures table.rows == DutyPaidRows(old(table.rows), selected)
    ensures updated == SelectedCount(|old(table.rows)|, selected)
    ensures (forall k :: k in selected ==> k < |old(table.rows)|) ==> updated == |selected|
  {
    updated := SelectedCount(|table.rows|, selected);
    if forall k :: k in selected ==> k < |table.rows| {
      SelectedCountOfSelection(|table.rows|, selected);
    }
    DutyPaidKeepsUnique(table.rows, selected);
    table.rows := DutyPaidRows(table.rows, selected);
  }

  /** `mark_freight_paid`. */
  method MarkFreightPaid(table: ShipmentTable, selected: set<nat>) returns (updated: nat)
    requires table.Valid()
    modifies table
    ensures table.Valid()
    ensures table.rows == FreightPaidRows(old(table.rows), selected)
    ensures updated == SelectedCount(|old(table.rows)|, selected)
    ensures (forall k :: k in selected ==> k < |old(table.rows)|) ==> updated == |selected|
  {
    updated := SelectedCount(|table.rows|, selected);
    if forall k :: k in selected ==> k < |table.rows| {
      SelectedCountOfSelection(|table.rows|, selected);
    }
    FreightPaidKeepsUnique(table.rows, selected);
    table.rows := FreightPaidRows(table.rows, selected);
  }

  // ---- attachments uploaded to cloud storage ----

  /** What the storage service returned for an upload: an object id and a link, either
      of which may be missing. The upload itself is not modelled. */
  datatype DriveFile = DriveFile(id: Option<string>, link: Option<string>)

  /** The persisted columns of an `AdminUpload` row. */
  datatype UploadRow = UploadRow(file: string, driveFileId: Option<string>, driveFileLink: Option<string>)

  /** An empty or missing text counts as absent, as Python's `not x` has it. */
  predicate Blank(x: Option<string>) {
    x.None? || x.value == []
  }

  /** An `AdminUpload` object being saved in the admin: `file` is the stored file name,
      empty when no file is attached; `stored` is the database row. */
  class AdminUpload {
    var file: string
    var driveFileId: Option<string>
    var driveFileLink: Option<string>
    var stored: Option<UploadRow>

    function Row(): UploadRow
      reads this
    {
      UploadRow(file, driveFileId, driveFileLink)
    }

    /** The guard of `save_model`: a file is attached and no object id is recorded. */
    predicate NeedsUpload()
      reads this
    {
      file != [] && Blank(driveFileId)
    }

    constructor (file: string)
      ensures this.file == file && driveFileId.None? && driveFileLink.None? && stored.None?
    {
      this.file := file;
      driveFileId, driveFileLink, stored := None, None, None;
    }

    /** `save_model` as it is evidently meant to work: upload when the guard holds,
        record the id and the link, then save. */
    method SaveModel(drive: DriveFile) returns (uploaded: bool)
      modifies this
      ensures uploaded == old(NeedsUpload())
      ensures file == old(file)
      ensures uploaded ==> driveFileId == drive.id && driveFileLink == drive.link
      ensures !uploaded ==> driveFileId == old(driveFileId) && driveFileLink == old(driveFileLink)
      ensures stored == Some(Row())
      ensures uploaded && !Blank(drive.id) ==> !NeedsUpload()
    {
      uploaded := NeedsUpload();
      if uploaded {
        driveFileId := drive.id;
        driveFileLink := drive.link;
      }
      stored := Some(Row());
    }

    /** `save_model` as written: the call passes a `drive_id` keyword that the upload
        function does not accept, so whenever the guard holds the call raises a
        `TypeError` before anything is recorded or saved. */
    method SaveModelAsWritten() returns (raised: bool)
      modifies this
      ensures raised == old(NeedsUpload())
      ensures raised ==> unchanged(this)
      ensures !raised ==> file == old(file) && driveFileId == old(driveFileId)
                          && driveFileLink == old(driveFileLink) && stored == Some(Row())
    {
      raised := NeedsUpload();
      if !raised {
        stored := Some(Row());
      }
    }
  }

  /** As written, the first save of a new attachment fails and stores nothing. */
  method FirstSaveAsWritten(name: string) returns (raised: bool, stored: Option<UploadRow>)
    requires name != []
    ensures raised && stored.None?
  {
    var u := new AdminUpload(name);
    raised := u.SaveModelAsWritten();
    stored := u.stored;
  }

  /** As intended, the first save uploads and stores the returned id; a second save of
      the same object, once an id is recorded, does not upload again. */
  method SaveTwice(name: string, first: DriveFile, second: DriveFile)
    returns (firstUploaded: bool, secondUploaded: bool, stored: Option<UploadRow>)
    requires name != [] && !Blank(first.id)
    ensures firstUploaded && !secondUploaded
    ensures stored == Some(UploadRow(name, first.id, first.link))
  {
    var u := new AdminUpload(name);
    firstUploaded := u.SaveModel(first);
    secondUploaded := u.SaveModel(second);
    stored := u.stored;
  }
}
