/** The public lookup service (shipments/views.py): the `track_shipment` endpoint,
    the terser `api_shipment_status` endpoint and the "recent arrivals" list shown on
    the tracking home page. Every handler only reads the table. */
module Views {
  import opened Text
  import opened Models

  // ---- lookup by any of the three identifiers ----

  /** The `Q(bl_number__iexact=q) | Q(container_no__iexact=q) | Q(chassis_no__iexact=q)`
      filter; a NULL chassis number never compares equal. */
  predicate Matches(s: Shipment, q: string) {
    || IEquals(s.blNumber, q)
    || IEquals(s.containerNo, q)
    || (s.chassisNo.Some? && IEquals(s.chassisNo.value, q))
  }

  /** The rows the filter selects, in table order. */
  function MatchingRows(rows: seq<Shipment>, q: string): (r: seq<Shipment>)
    ensures |r| <= |rows|
    ensures forall x :: x in r <==> x in rows && Matches(x, q)
  {
    if rows == [] then []
    else (if Matches(rows[0], q) then [rows[0]] else []) + MatchingRows(rows[1..], q)
  }

  /** Outcome of `Shipment.objects.get(...)`. */
  datatype Lookup = DoesNotExist | Found(shipment: Shipment) | MultipleObjectsReturned

  function Get(rows: seq<Shipment>, q: string): (r: Lookup)
    ensures r.DoesNotExist? <==> forall x :: x in rows ==> !Matches(x, q)
    ensures r.Found? ==> r.shipment in rows && Matches(r.shipment, q)
  {
    var m := MatchingRows(rows, q);
    assert |m| > 0 ==> m[0] in m;
    if |m| == 0 then DoesNotExist
    else if |m| == 1 then Found(m[0])
    else MultipleObjectsReturned
  }

  /** The index-level reading of `get`: it returns a row exactly when that row is the
      only one, at any position, that the filter selects. */
  lemma {:induction false} GetFoundExactlyOne(rows: seq<Shipment>, q: string, i: nat)
    requires i < |rows| && Matches(rows[i], q)
    ensures Get(rows, q) == Found(rows[i]) <==>
            forall j :: 0 <= j < |rows| && j != i ==> !Matches(rows[j], q)
  {
    MatchCountByIndex(rows, q, i);
  }

  /** How many positions of `rows` the filter selects. */
  function MatchCount(rows: seq<Shipment>, q: string): nat {
    |MatchingRows(rows, q)|
  }

  lemma {:induction false} MatchCountByIndex(rows: seq<Shipment>, q: string, i: nat)
    requires i < |rows| && Matches(rows[i], q)
    ensures MatchingRows(rows, q) == [rows[i]] <==>
            forall j :: 0 <= j < |rows| && j != i ==> !Matches(rows[j], q)
    decreases rows
  {
    var tail := rows[1..];
    if i == 0 {
      NoMatchesIffEmpty(tail, q);
      assert forall j :: 1 <= j < |rows| ==> rows[j] == tail[j - 1];
    } else {
      assert rows[i] == tail[i - 1];
      MatchCountByIndex(tail, q, i - 1);
      assert forall j :: 1 <= j < |rows| ==> rows[j] == tail[j - 1];
      if Matches(rows[0], q) {
        assert rows[i] in MatchingRows(tail, q);
      }
    }
  }

  lemma NoMatchesIffEmpty(rows: seq<Shipment>, q: string)
    ensures MatchingRows(rows, q) == [] <==> forall j :: 0 <= j < |rows| ==> !Matches(rows[j], q)
  {
    if MatchingRows(rows, q) != [] {
      assert MatchingRows(rows, q)[0] in MatchingRows(rows, q);
    }
  }

  // ---- track_shipment ----

  /** What `json.loads(request.body)` produced, as far as the handler cares. */
  datatype JsonField = Missing | JsonString(text: string) | JsonNonString
  /** `Unparseable` is a body that `json.loads` rejects with a `JSONDecodeError`;
      `Undecodable` is one it rejects earlier, while decoding the bytes to text
      (`UnicodeDecodeError`), or later, on nesting too deep (`RecursionError`). */
  datatype Body = Unparseable | Undecodable | NotAnObject | Object(trackingNumber: JsonField)

  /** A date in a payload: either formatted from a date (`strftime('%B %d, %Y')`,
      kept uninterpreted) or a fixed marker text. */
  datatype DateText = Formatted(date: Day) | Marker(text: string)

  datatype Payload = Payload(
    blNumber: string,
    containerNo: string,
    chassisNo: string,
    shippingLine: string,
    consignee: string,
    shipper: string,
    eta: DateText,
    gateOutDate: DateText,
    dutyStatus: string,
    freightStatus: string,
    freeDays: int,
    demurrageDays: int,
    agentAssigned: string,
    supervisorStatus: string,
    description: string,
    isOverdue: bool,
    daysOverdue: int,
    statusColor: string)

  datatype TrackResponse =
    | Success(shipment: Payload)
    | Failure(status: int, message: string)

  const EmptyMessage := "Please enter a tracking number"
  const InvalidCharsMessage := "Tracking number must contain only letters and numbers."
  const NotFoundMessage := "Shipment not found. Please check your tracking number and try again."
  const BadFormatMessage := "Invalid request format"
  const InternalMessage := "An error occurred while processing your request"
  const MethodMessage := "Method not allowed"

  /** `x or default` on a text value. */
  function OrDefault(x: string, default: string): (r: string)
    ensures x == [] ==> r == default
    ensures x != [] ==> r == x
  {
    if x == [] then default else x
  }

  /** The three-way colour hint: delivered, overdue, or still on its way. */
  function StatusColor(s: Shipment, today: Day): (r: string)
    ensures r == "success" <==> s.gateOutDate.Some?
    ensures r == "danger" <==> IsOverdue(s, today)
    ensures r == "warning" <==> s.gateOutDate.None? && !IsOverdue(s, today)
    ensures r in {"success", "danger", "warning"}
  {
    if s.gateOutDate.Some? then "success" else if IsOverdue(s, today) then "danger" else "warning"
  }

  /** The `shipment_data` dictionary of a successful lookup. */
  function BuildPayload(s: Shipment, today: Day): (p: Payload)
    ensures p.blNumber == s.blNumber && p.containerNo == s.containerNo
    ensures p.shippingLine == s.shippingLine && p.consignee == s.consignee && p.shipper == s.shipper
    ensures p.freeDays == s.freeDays && p.demurrageDays == s.demurrageDays
    ensures p.chassisNo == (if s.chassisNo.None? || s.chassisNo.value == [] then "N/A" else s.chassisNo.value)
    ensures p.eta == Formatted(s.eta)
    ensures p.gateOutDate == (if s.gateOutDate.Some? then Formatted(s.gateOutDate.value) else Marker("Not yet delivered"))
    ensures p.dutyStatus == DutyStatusDisplay(s)
    ensures p.freightStatus == FreightDisplay(s.freightStatus)
    ensures p.supervisorStatus == SupervisorDisplay(s.supervisorStatus)
    ensures p.agentAssigned == (if s.agentAssigned == [] then "Not assigned" else s.agentAssigned)
    ensures p.description == (if s.description == [] then "No description available" else s.description)
    ensures p.isOverdue == IsOverdue(s, today)
    ensures p.daysOverdue == 0 <==> !p.isOverdue
    ensures p.isOverdue ==> s.eta + p.daysOverdue == today
    ensures p.statusColor == StatusColor(s, today)
  {
    var chassis := match s.chassisNo case None => "" case Some(c) => c;
    Payload(
      blNumber := s.blNumber,
      containerNo := s.containerNo,
      chassisNo := OrDefault(chassis, "N/A"),
      shippingLine := s.shippingLine,
      consignee := s.consignee,
      shipper := s.shipper,
      eta := Formatted(s.eta),
      gateOutDate := if s.gateOutDate.Some? then Formatted(s.gateOutDate.value) else Marker("Not yet delivered"),
      dutyStatus := if s.dutyStatus then "Paid" else "Not Paid",
      freightStatus := FreightDisplay(s.freightStatus),
      freeDays := s.freeDays,
      demurrageDays := s.demurrageDays,
      agentAssigned := OrDefault(s.agentAssigned, "Not assigned"),
      supervisorStatus := SupervisorDisplay(s.supervisorStatus),
      description := OrDefault(s.description, "No description available"),
      isOverdue := IsOverdue(s, today),
      daysOverdue := if IsOverdue(s, today) then DaysOverdue(s, today) else 0,
      statusColor := StatusColor(s, today))
  }

  /** The validation steps of `track_shipment`: the stripped query, or the 400 reply. */
  function ValidateQuery(raw: string): (r: Validation)
    ensures r.Accepted? ==> r.query == Strip(raw) && r.query != [] && AllAlnum(r.query)
    ensures r.Refused? ==> r.reply.Failure? && r.reply.status == 400
    ensures Strip(raw) == [] ==> r == Refused(Failure(400, EmptyMessage))
    ensures Strip(raw) != [] && !AllAlnum(Strip(raw)) ==> r == Refused(Failure(400, InvalidCharsMessage))
  {
    var t := Strip(raw);
    PatternOnStripped(raw);
    if t == [] then Refused(Failure(400, EmptyMessage))
    else if !AlnumPatternMatches(t) then Refused(Failure(400, InvalidCharsMessage))
    else Accepted(t)
  }

  datatype Validation = Accepted(query: string) | Refused(reply: TrackResponse)

  /** `track_shipment(request)`. Any exception other than a JSON decoding error becomes
      the sanitized 500 reply: undecodable bytes, a body that is not an object, a tracking number that is
      not a string, and a query that matches several rows. */
  function Track(httpMethod: string, body: Body, rows: seq<Shipment>, today: Day): (r: TrackResponse)
    ensures httpMethod != "POST" ==> r == Failure(405, MethodMessage)
    ensures httpMethod == "POST" && body.Unparseable? ==> r == Failure(400, BadFormatMessage)
    ensures httpMethod == "POST" && (body.Undecodable? || body.NotAnObject? || (body.Object? && body.trackingNumber.JsonNonString?)) ==>
              r == Failure(500, InternalMessage)
    ensures httpMethod == "POST" && body.Object? && body.trackingNumber.Missing? ==> r == Failure(400, EmptyMessage)
    ensures httpMethod == "POST" && body.Object? && body.trackingNumber.JsonString? ==>
              r == TrackQuery(body.trackingNumber.text, rows, today)
    ensures r.Success? ==> exists s :: s in rows && r.shipment == BuildPayload(s, today)
  {
    if httpMethod != "POST" then Failure(405, MethodMessage)
    else match body
      case Unparseable => Failure(400, BadFormatMessage)
      case Undecodable => Failure(500, InternalMessage)
      case NotAnObject => Failure(500, InternalMessage)
      case Object(field) =>
        match field
        case JsonNonString => Failure(500, InternalMessage)
        case Missing => TrackQuery("", rows, today)
        case JsonString(text) => TrackQuery(text, rows, today)
  }

  /** The part of `track_shipment` after the tracking number has been read. */
  function TrackQuery(raw: string, rows: seq<Shipment>, today: Day): (r: TrackResponse)
    ensures Strip(raw) == [] ==> r == Failure(400, EmptyMessage)
    ensures Strip(raw) != [] && !AllAlnum(Strip(raw)) ==> r == Failure(400, InvalidCharsMessage)
    ensures r.Success? ==> exists s :: s in rows && Matches(s, Strip(raw)) && r.shipment == BuildPayload(s, today)
  {
    match ValidateQuery(raw)
    case Refused(reply) => reply
    case Accepted(q) =>
      match Get(rows, q)
      case DoesNotExist => Failure(404, NotFoundMessage)
      case MultipleObjectsReturned => Failure(500, InternalMessage)
      case Found(s) => Success(BuildPayload(s, today))
  }

  /** A query that fails validation is answered without consulting the table. */
  lemma RejectedWithoutLookup(raw: string, rows1: seq<Shipment>, rows2: seq<Shipment>, today1: Day, today2: Day)
    requires ValidateQuery(raw).Refused?
    ensures TrackQuery(raw, rows1, today1) == TrackQuery(raw, rows2, today2) == ValidateQuery(raw).reply
  {
  }

  /** The four outcomes of a well-formed query, by the number of rows it selects. */
  lemma TrackOutcomes(raw: string, rows: seq<Shipment>, today: Day)
    requires Strip(raw) != [] && AllAlnum(Strip(raw))
    ensures MatchCount(rows, Strip(raw)) == 0 <==> TrackQuery(raw, rows, today) == Failure(404, NotFoundMessage)
    ensures MatchCount(rows, Strip(raw)) >= 2 <==> TrackQuery(raw, rows, today) == Failure(500, InternalMessage)
    ensures MatchCount(rows, Strip(raw)) == 1 <==> TrackQuery(raw, rows, today).Success?
    ensures MatchCount(rows, Strip(raw)) == 1 ==>
              TrackQuery(raw, rows, today) == Success(BuildPayload(MatchingRows(rows, Strip(raw))[0], today))
  {
    PatternOnStripped(raw);
  }

  /** A well-formed query naming a row uniquely finds it, whichever of its three
      identifiers it is and in whatever letter case. */
  lemma TrackFindsUniqueMatch(raw: string, rows: seq<Shipment>, today: Day, i: nat)
    requires Strip(raw) != [] && AllAlnum(Strip(raw))
    requires i < |rows| && Matches(rows[i], Strip(raw))
    requires forall j :: 0 <= j < |rows| && j != i ==> !Matches(rows[j], Strip(raw))
    ensures TrackQuery(raw, rows, today) == Success(BuildPayload(rows[i], today))
  {
    PatternOnStripped(raw);
    GetFoundExactlyOne(rows, Strip(raw), i);
  }

  /** Surrounding whitespace is ignored by the tracking endpoint. */
  lemma TrackIgnoresSurroundingSpace(raw: string, rows: seq<Shipment>, today: Day)
    ensures TrackQuery(raw, rows, today) == TrackQuery(Strip(raw), rows, today)
  {
    ValidateIgnoresSurroundingSpace(raw);
  }

  lemma ValidateIgnoresSurroundingSpace(raw: string)
    ensures ValidateQuery(Strip(raw)) == ValidateQuery(raw)
  {
    StripIdempotent(raw);
  }

  /** A well-formed query that two rows answer to gets the sanitized 500 reply. */
  lemma {:induction false} TrackAmbiguous(raw: string, rows: seq<Shipment>, today: Day, i: nat, j: nat)
    requires Strip(raw) != [] && AllAlnum(Strip(raw))
    requires i < j < |rows| && Matches(rows[i], Strip(raw)) && Matches(rows[j], Strip(raw))
    ensures TrackQuery(raw, rows, today) == Failure(500, InternalMessage)
  {
    TwoMatches(rows, Strip(raw), i, j);
    TrackOutcomes(raw, rows, today);
  }

  lemma {:induction false} TwoMatches(rows: seq<Shipment>, q: string, i: nat, j: nat)
    requires i < j < |rows| && Matches(rows[i], q) && Matches(rows[j], q)
    ensures MatchCount(rows, q) >= 2
  {
    var m := MatchingRows(rows, q);
    MatchCountByIndex(rows, q, i);
    assert rows[i] in m && m != [rows[i]];
  }

  /** A punctuation mark inside the tracking number gets the bad-character 400; by
      `RejectedWithoutLookup` that is the reply whatever the table holds. */
  lemma PunctuationRefused()
    ensures ValidateQuery("BL!2024") == Refused(Failure(400, InvalidCharsMessage))
  {
    PunctuationExampleStrips();
    PunctuationExampleNotAlnum();
  }

  /** A container number typed in lower case finds its row. */
  lemma LowerCaseContainerFindsRow(s: Shipment, today: Day)
    requires s.containerNo == "CONT002"
    ensures TrackQuery("cont002", [s], today) == Success(BuildPayload(s, today))
  {
    IEqualsByLetters(s.containerNo, "cont002");
    assert AllAlnum("cont002");
    StripAlnum("cont002");
    TrackFindsUniqueMatch("cont002", [s], today, 0);
  }

  /** Uniqueness of `bl_number` is case-sensitive, so it does not keep a BL-number
      lookup from meeting two rows: "BL7" and "bl7" may both be stored. */
  lemma AmbiguousDespiteUniqueBl()
    ensures "BL7" != "bl7" && IEquals("BL7", "bl7")
  {
    IEqualsByLetters("BL7", "bl7");
  }

  // ---- api_shipment_status ----

  datatype ApiStatus = ApiStatus(
    blNumber: string,
    containerNo: string,
    status: string,
    eta: Option<Day>,
    gateOutDate: Option<Day>,
    dutyPaid: bool,
    freightStatus: string,
    agent: string)

  datatype ApiResponse =
    | ApiOk(body: ApiStatus)
    | ApiError(status: int, error: string)
    | ServerError  // the framework's page for an uncaught exception, status 500

  /** The reply body for one row: `status` says whether it has left the port, and
      `freight_status` is the stored value, not its label. */
  function StatusOf(s: Shipment): (b: ApiStatus)
    ensures b.blNumber == s.blNumber && b.containerNo == s.containerNo
    ensures b.status == "delivered" <==> s.gateOutDate.Some?
    ensures b.status == "in_transit" <==> s.gateOutDate.None?
    ensures b.eta == Some(s.eta) && b.gateOutDate == s.gateOutDate
    ensures b.dutyPaid == s.dutyStatus && b.freightStatus == s.freightStatus && b.agent == s.agentAssigned
  {
    ApiStatus(
      blNumber := s.blNumber,
      containerNo := s.containerNo,
      status := if s.gateOutDate.Some? then "delivered" else "in_transit",
      eta := Some(s.eta),
      gateOutDate := s.gateOutDate,
      dutyPaid := s.dutyStatus,
      freightStatus := s.freightStatus,
      agent := s.agentAssigned)
  }

  /** `api_shipment_status(request)` with the `tracking_number` query parameter. The
      query is used as given, with no trimming and no character check; a query that
      selects several rows raises an exception nothing catches, which the framework
      turns into a 500 reply. Dates are kept as day numbers, for `isoformat()`. */
  function ApiShipmentStatus(param: Option<string>, rows: seq<Shipment>): (r: ApiResponse)
    ensures (param.None? || param.value == []) <==> r == ApiError(400, "tracking_number parameter is required")
    ensures r.ApiOk? ==> param.Some? && (exists s :: s in rows && Matches(s, param.value) && StatusOf(s) == r.body)
    ensures param.Some? && param.value != [] ==>
              (r == ApiError(404, "Shipment not found") <==> forall s :: s in rows ==> !Matches(s, param.value))
    ensures param.Some? && param.value != [] ==>
              (r == ApiError(404, "Shipment not found") <==> MatchCount(rows, param.value) == 0)
    ensures param.Some? && param.value != [] ==> (r.ApiOk? <==> MatchCount(rows, param.value) == 1)
    ensures param.Some? && param.value != [] && MatchCount(rows, param.value) == 1 ==>
              r == ApiOk(StatusOf(MatchingRows(rows, param.value)[0]))
    ensures param.Some? && param.value != [] ==> (r == ServerError <==> MatchCount(rows, param.value) >= 2)
  {
    if param.None? || param.value == [] then ApiError(400, "tracking_number parameter is required")
    else match Get(rows, param.value)
      case DoesNotExist => ApiError(404, "Shipment not found")
      case MultipleObjectsReturned => ServerError
      case Found(s) => ApiOk(StatusOf(s))
  }

  /** A non-empty query that exactly one row answers to returns that row's status. */
  lemma ApiFindsUniqueMatch(q: string, rows: seq<Shipment>, i: nat)
    requires q != [] && i < |rows| && Matches(rows[i], q)
    requires forall j :: 0 <= j < |rows| && j != i ==> !Matches(rows[j], q)
    ensures ApiShipmentStatus(Some(q), rows) == ApiOk(StatusOf(rows[i]))
  {
    GetFoundExactlyOne(rows, q, i);
  }

  /** `track_shipment` finds a row from its BL number typed after a blank ... */
  lemma TrackFindsPaddedQuery(s: Shipment, c: char, q: string, today: Day)
    requires IsSpace(c) && q != [] && AllAlnum(q)
    requires Matches(s, q)
    ensures TrackQuery([c] + q, [s], today) == Success(BuildPayload(s, today))
  {
    StripSkipsLeadingSpace(c, q);
    StripAlnum(q);
    assert [s][0] == s;
    TrackFindsUniqueMatch([c] + q, [s], today, 0);
  }

  /** ... which the machine endpoint, not trimming, cannot find in a row whose
      identifiers are letters and digits. */
  lemma ApiDoesNotTrim(s: Shipment, c: char, q: string)
    requires IsSpace(c)
    requires AllAlnum(s.blNumber) && AllAlnum(s.containerNo)
    requires s.chassisNo.Some? ==> AllAlnum(s.chassisNo.value)
    ensures ApiShipmentStatus(Some([c] + q), [s]) == ApiError(404, "Shipment not found")
  {
    var raw := [c] + q;
    PaddedNeverEquals(s.blNumber, c, q);
    PaddedNeverEquals(s.containerNo, c, q);
    if s.chassisNo.Some? {
      PaddedNeverEquals(s.chassisNo.value, c, q);
    }
    assert forall x :: x in [s] ==> x == s;
  }

  lemma PaddedNeverEquals(x: string, c: char, q: string)
    requires IsSpace(c) && AllAlnum(x)
    ensures !IEquals(x, [c] + q)
  {
    if x == [] {
      assert |Fold(x)| != |Fold([c] + q)|;
    } else {
      assert IsAsciiAlnum(x[0]);
      assert IsAsciiAlnum(Fold(x)[0]);
      assert Fold([c] + q)[0] == c;
    }
  }

  // ---- recent arrivals on the home page ----

  /** `filter(gate_out_date__isnull=False)`. */
  function Delivered(rows: seq<Shipment>): (r: seq<Shipment>)
    ensures forall x :: x in r <==> x in rows && x.gateOutDate.Some?
    ensures multiset(r) <= multiset(rows)
    ensures forall x :: x in rows && x.gateOutDate.Some? ==> multiset(r)[x] == multiset(rows)[x]
  {
    if rows == [] then []
    else
      var rest := Delivered(rows[1..]);
      assert rows == [rows[0]] + rows[1..];
      if rows[0].gateOutDate.Some? then [rows[0]] + rest else rest
  }

  /** The sort key: the gate-out day of a delivered row (only delivered rows are
      sorted, so the value for the others is never used). */
  function GateOutKey(s: Shipment): Day {
    match s.gateOutDate
    case Some(d) => d
    case None => s.eta
  }

  /** Latest gate-out date first. */
  predicate NewestFirst(s: seq<Shipment>) {
    forall i, j :: 0 <= i < j < |s| ==> GateOutKey(s[i]) >= GateOutKey(s[j])
  }

  predicate NoneLaterThan(s: seq<Shipment>, bound: Day) {
    forall i :: 0 <= i < |s| ==> GateOutKey(s[i]) <= bound
  }

  lemma ConsNewestFirst(h: Shipment, t: seq<Shipment>)
    requires NewestFirst(t) && NoneLaterThan(t, GateOutKey(h))
    ensures NewestFirst([h] + t)
    ensures forall b :: NoneLaterThan(t, b) && GateOutKey(h) <= b ==> NoneLaterThan([h] + t, b)
  {
    var r := [h] + t;
    assert forall i :: 1 <= i < |r| ==> r[i] == t[i - 1];
  }

  lemma TailNewestFirst(s: seq<Shipment>)
    requires NewestFirst(s) && s != []
    ensures NewestFirst(s[1..]) && NoneLaterThan(s[1..], GateOutKey(s[0]))
  {
    assert forall i :: 0 <= i < |s| - 1 ==> s[1..][i] == s[i + 1];
  }

  /** Inserts a row before the first row that left earlier than it. */
  function InsertByGateOut(x: Shipment, s: seq<Shipment>): (r: seq<Shipment>)
    ensures multiset(r) == multiset(s) + multiset{x}
  {
    if s == [] || GateOutKey(s[0]) <= GateOutKey(x) then [x] + s
    else
      assert s == [s[0]] + s[1..];
      [s[0]] + InsertByGateOut(x, s[1..])
  }

  /** Inserting into a newest-first list keeps it newest first, and keeps any bound
      on its gate-out days that the new row also meets. */
  lemma {:induction false} InsertByGateOutOrdered(x: Shipment, s: seq<Shipment>)
    requires NewestFirst(s)
    ensures NewestFirst(InsertByGateOut(x, s))
    ensures forall b :: NoneLaterThan(s, b) && GateOutKey(x) <= b ==> NoneLaterThan(InsertByGateOut(x, s), b)
  {
    if s == [] || GateOutKey(s[0]) <= GateOutKey(x) {
      ConsNewestFirst(x, s);
    } else {
      TailNewestFirst(s);
      InsertByGateOutOrdered(x, s[1..]);
      var t := InsertByGateOut(x, s[1..]);
      ConsNewestFirst(s[0], t);
      assert forall b :: NoneLaterThan(s, b) ==> GateOutKey(s[0]) <= b && NoneLaterThan(s[1..], b) by {
        assert forall i :: 0 <= i < |s| - 1 ==> s[1..][i] == s[i + 1];
      }
    }
  }

  /** `order_by('-gate_out_date')` (the database leaves the order of equal dates open;
      this ordering is one of those it may choose). */
  function SortNewestFirst(s: seq<Shipment>): (r: seq<Shipment>)
    ensures NewestFirst(r)
    ensures multiset(r) == multiset(s)
  {
    if s == [] then []
    else
      assert s == [s[0]] + s[1..];
      var t := SortNewestFirst(s[1..]);
      InsertByGateOutOrdered(s[0], t);
      InsertByGateOut(s[0], t)
  }

  /** In a list sorted newest first, nothing after position `k` is newer than anything
      before it. */
  lemma SplitOrdered(s: seq<Shipment>, k: nat)
    requires NewestFirst(s) && k <= |s|
    ensures forall x, y :: x in s[k..] && y in s[..k] ==> GateOutKey(x) <= GateOutKey(y)
  {
    forall x, y | x in s[k..] && y in s[..k]
      ensures GateOutKey(x) <= GateOutKey(y)
    {
      var a :| 0 <= a < |s[k..]| && s[k..][a] == x;
      var b :| 0 <= b < k && s[..k][b] == y;
      assert s[k + a] == x && s[b] == y;
    }
  }

  const RecentLimit := 5

  lemma PrefixNewestFirst(s: seq<Shipment>, k: nat)
    requires NewestFirst(s) && k <= |s|
    ensures NewestFirst(s[..k])
  {
    assert forall i :: 0 <= i < k ==> s[..k][i] == s[i];
  }

  /** The `recent_arrivals` context value: the delivered rows, newest first, at most
      five of them. */
  function RecentArrivals(rows: seq<Shipment>): (r: seq<Shipment>)
    ensures |r| <= RecentLimit
    ensures forall x :: x in r ==> x in rows && x.gateOutDate.Some?
    ensures NewestFirst(r)
  {
    var d := Delivered(rows);
    var sorted := SortNewestFirst(d);
    var k := if |sorted| <= RecentLimit then |sorted| else RecentLimit;
    assert forall x :: x in sorted[..k] ==> x in multiset(sorted);
    PrefixNewestFirst(sorted, k);
    sorted[..k]
  }

  lemma {:induction false} RecentArrivalsIsPrefix(rows: seq<Shipment>)
    ensures var sorted := SortNewestFirst(Delivered(rows));
            |sorted| == |Delivered(rows)| &&
            RecentArrivals(rows) == sorted[..if |sorted| <= RecentLimit then |sorted| else RecentLimit]
  {
    var d := Delivered(rows);
    assert |multiset(SortNewestFirst(d))| == |multiset(d)|;
  }

  /** Cutting a sorted permutation of `d` after `k` rows keeps the `k` newest. */
  lemma TakeNewest(d: seq<Shipment>, sorted: seq<Shipment>, k: nat)
    requires multiset(sorted) == multiset(d) && NewestFirst(sorted) && k <= |sorted|
    ensures forall x, y :: x in multiset(d) - multiset(sorted[..k]) && y in sorted[..k] ==>
              x in d && GateOutKey(x) <= GateOutKey(y)
  {
    var rest := sorted[k..];
    assert multiset(d) - multiset(sorted[..k]) == multiset(rest) by {
      assert sorted == sorted[..k] + rest;
    }
    SplitOrdered(sorted, k);
  }

  /** The list is drawn from the table's delivered rows ... */
  lemma {:induction false} RecentArrivalsFromDelivered(rows: seq<Shipment>)
    ensures multiset(RecentArrivals(rows)) <= multiset(Delivered(rows))
  {
    var sorted := SortNewestFirst(Delivered(rows));
    RecentArrivalsIsPrefix(rows);
    PrefixSubMultiset(sorted, |RecentArrivals(rows)|);
  }

  lemma PrefixSubMultiset(s: seq<Shipment>, k: nat)
    requires k <= |s|
    ensures multiset(s[..k]) <= multiset(s)
  {
    assert s == s[..k] + s[k..];
  }

  /** ... it is as long as it can be ... */
  lemma {:induction false} RecentArrivalsLength(rows: seq<Shipment>)
    ensures |RecentArrivals(rows)| == if |Delivered(rows)| < RecentLimit then |Delivered(rows)| else RecentLimit
  {
    RecentArrivalsIsPrefix(rows);
  }

  /** ... and no delivered row left out left the port later than a row shown. */
  lemma {:induction false} RecentArrivalsAreTheNewest(rows: seq<Shipment>)
    ensures forall x, y :: x in multiset(Delivered(rows)) - multiset(RecentArrivals(rows)) && y in RecentArrivals(rows) ==>
              x.gateOutDate.Some? && GateOutKey(x) <= GateOutKey(y)
  {
    var d := Delivered(rows);
    var sorted := SortNewestFirst(d);
    RecentArrivalsIsPrefix(rows);
    TakeNewest(d, sorted, |RecentArrivals(rows)|);
  }
}
