/** The rule-based validator: field checks, and `ValidateRecord`, which
    recomputes a record's errors, warnings and status from its data fields. */
module Validators {
  import opened JsStrings
  import opened UdiTypes

  const RequiredMessage := "This field is required"
  const DateFormatMessage := "Date must be in YYYY-MM-DD format"
  const InvalidDateMessage := "Invalid date"
  const ShortIdentifierMessage := "Device identifier must be at least 5 characters"

  const DeviceRequired := "Device Identifier is required"
  const ManufacturerRequired := "Manufacturer Name is required"
  const ProductRequired := "Product Name is required"
  const IdentifierLength := "Device identifier should be at least 5 characters"
  const DateOrderWarning := "Expiration date should be after production date"

  /** The `{ valid, message }` result of a field check. */
  datatype Check = Ok | Failed(message: string)

  /** Fails exactly on the empty string and on strings made of whitespace. */
  function ValidateRequiredField(value: string): (r: Check)
    ensures r.Failed? <==> forall i :: 0 <= i < |value| ==> IsJsWhitespace(value[i])
    ensures r.Failed? ==> r.message == RequiredMessage
  {
    if value == "" || TrimStart(value) == "" then Failed(RequiredMessage) else Ok
  }

  predicate IsDigit(c: char)
  {
    '0' <= c <= '9'
  }

  function Digit(c: char): int
  {
    c as int - '0' as int
  }

  /** The text matches `^\d{4}-\d{2}-\d{2}$`. */
  predicate IsDateShape(s: string)
  {
    |s| == 10 &&
    IsDigit(s[0]) && IsDigit(s[1]) && IsDigit(s[2]) && IsDigit(s[3]) && s[4] == '-' &&
    IsDigit(s[5]) && IsDigit(s[6]) && s[7] == '-' && IsDigit(s[8]) && IsDigit(s[9])
  }

  function Year(s: string): int
    requires IsDateShape(s)
  {
    1000 * Digit(s[0]) + 100 * Digit(s[1]) + 10 * Digit(s[2]) + Digit(s[3])
  }

  function Month(s: string): int
    requires IsDateShape(s)
  {
    10 * Digit(s[5]) + Digit(s[6])
  }

  function Day(s: string): int
    requires IsDateShape(s)
  {
    10 * Digit(s[8]) + Digit(s[9])
  }

  predicate IsLeapYear(y: int)
  {
    y % 4 == 0 && (y % 100 != 0 || y % 400 == 0)
  }

  function DaysInMonth(y: int, m: int): int
    requires 1 <= m <= 12
  {
    if m == 2 then (if IsLeapYear(y) then 29 else 28)
    else if m == 4 || m == 6 || m == 9 || m == 11 then 30
    else 31
  }

  /** `new Date(s)` yields a valid time: `s` names a day of the proleptic Gregorian calendar. */
  predicate Parses(s: string)
  {
    IsDateShape(s) && 1 <= Month(s) <= 12 && 1 <= Day(s) <= DaysInMonth(Year(s), Month(s))
  }

  /** The position of a parsed date on the time line: `a` is later than `b` iff its key is larger. */
  function DateKey(s: string): int
    requires IsDateShape(s)
  {
    Year(s) * 10000 + Month(s) * 100 + Day(s)
  }

  /** The empty string passes; a malformed string fails with the format
      message before any calendar check is made. */
  function ValidateDate(value: string): (r: Check)
    ensures value == "" ==> r == Ok
    ensures value != "" && !IsDateShape(value) ==> r == Failed(DateFormatMessage)
    ensures r == Ok <==> value == "" || Parses(value)
    ensures r.Failed? ==> r.message == DateFormatMessage || r.message == InvalidDateMessage
  {
    if value == "" then Ok
    else if !IsDateShape(value) then Failed(DateFormatMessage)
    else if !Parses(value) then Failed(InvalidDateMessage)
    else Ok
  }

  /** The empty identifier is reported as a missing required field, a short one as too short. */
  function ValidateDeviceIdentifier(value: string): (r: Check)
    ensures value == "" ==> r == Failed(RequiredMessage)
    ensures 0 < |value| < 5 ==> r == Failed(ShortIdentifierMessage)
    ensures r == Ok <==> |value| >= 5
  {
    if value == "" then ValidateRequiredField(value)
    else if |value| < 5 then Failed(ShortIdentifierMessage)
    else Ok
  }

  /** The error a non-empty date field contributes, if any. */
  function DateErrors(value: string): seq<string>
  {
    if value != "" then
      match ValidateDate(value)
      case Failed(m) => [m]
      case Ok => []
    else []
  }

  /** The errors `ValidateRecord` collects, in the order it collects them. */
  function RecordErrors(r: UdiRecord): seq<string>
  {
    (if r.deviceIdentifier == "" then [DeviceRequired] else []) +
    (if r.manufacturerName == "" then [ManufacturerRequired] else []) +
    (if r.productName == "" then [ProductRequired] else []) +
    DateErrors(r.productionDate) +
    DateErrors(r.expirationDate) +
    (if r.deviceIdentifier != "" && |r.deviceIdentifier| < 5 then [IdentifierLength] else [])
  }

  /** Both dates are present, the expiration date is valid, and the
      production date parses to a later day. A production date that does not
      parse compares as false and raises nothing. */
  predicate ProducedAfterExpiry(r: UdiRecord)
  {
    r.expirationDate != "" && r.productionDate != "" && ValidateDate(r.expirationDate) == Ok &&
    Parses(r.productionDate) && DateKey(r.productionDate) > DateKey(r.expirationDate)
  }

  function RecordWarnings(r: UdiRecord): seq<string>
  {
    if ProducedAfterExpiry(r) then [DateOrderWarning] else []
  }

  function StatusFor(errors: seq<string>, warnings: seq<string>): RecordStatus
  {
    if |errors| > 0 then Invalid
    else if |warnings| > 0 then Warning
    else Valid
  }

  /** The record with its derived fields (errors, warnings, status) cleared. */
  function DataOf(r: UdiRecord): UdiRecord
  {
    r.(errors := None, warnings := None, status := Pending)
  }

  /** `a` and `b` agree on every field except the derived ones. */
  predicate SameData(a: UdiRecord, b: UdiRecord)
  {
    DataOf(a) == DataOf(b)
  }

  /** Records with the same data show the same value in every column but the
      status, and one holds booleans exactly where the other does. */
  lemma SameDataAgrees(a: UdiRecord, b: UdiRecord)
    requires SameData(a, b)
    ensures forall d :: d != Status ==> Get(a, d) == Get(b, d)
    ensures WellTyped(a) <==> WellTyped(b)
  {
    assert a.singleUse == DataOf(a).singleUse == DataOf(b).singleUse == b.singleUse;
    assert a.sterilized == DataOf(a).sterilized == DataOf(b).sterilized == b.sterilized;
    assert a.containsLatex == DataOf(a).containsLatex == DataOf(b).containsLatex == b.containsLatex;
    assert a.containsPhthalate == DataOf(a).containsPhthalate == DataOf(b).containsPhthalate == b.containsPhthalate;
  }

  /** Copies every data field, rebuilds errors and warnings, and derives the
      status from them; never yields `pending`. */
  function ValidateRecord(r: UdiRecord): (v: UdiRecord)
    ensures SameData(r, v)
    ensures v.errors == Some(RecordErrors(r)) && v.warnings == Some(RecordWarnings(r))
    ensures v.status == Invalid <==> v.errors.value != []
    ensures v.status == Warning <==> v.errors.value == [] && v.warnings.value != []
    ensures v.status == Valid <==> v.errors.value == [] && v.warnings.value == []
    ensures v.status != Pending
    ensures |v.warnings.value| <= 1
  {
    var errors := RecordErrors(r);
    var warnings := RecordWarnings(r);
    r.(errors := Some(errors), warnings := Some(warnings), status := StatusFor(errors, warnings))
  }

  /** `validateRecords`: the validator applied to each record, in order. */
  function ValidateRecords(rs: seq<UdiRecord>): (out: seq<UdiRecord>)
    ensures |out| == |rs|
    ensures forall i :: 0 <= i < |rs| ==> out[i] == ValidateRecord(rs[i])
  {
    seq(|rs|, i requires 0 <= i < |rs| => ValidateRecord(rs[i]))
  }

  /** The result depends only on the data fields, never on the old errors, warnings or status. */
  lemma ValidateIgnoresDerivedFields(a: UdiRecord, b: UdiRecord)
    requires SameData(a, b)
    ensures ValidateRecord(a) == ValidateRecord(b)
  {
    assert a.deviceIdentifier == b.deviceIdentifier && a.manufacturerName == b.manufacturerName;
    assert a.productionDate == b.productionDate && a.expirationDate == b.expirationDate;
    assert a.productName == b.productName;
  }

  lemma ValidateIdempotent(r: UdiRecord)
    ensures ValidateRecord(ValidateRecord(r)) == ValidateRecord(r)
  {
    ValidateIgnoresDerivedFields(ValidateRecord(r), r);
  }

  lemma ValidateRecordsIdempotent(rs: seq<UdiRecord>)
    ensures ValidateRecords(ValidateRecords(rs)) == ValidateRecords(rs)
  {
    forall i | 0 <= i < |rs| ensures ValidateRecords(ValidateRecords(rs))[i] == ValidateRecords(rs)[i] {
      ValidateIdempotent(rs[i]);
    }
  }

  /** Writing the status column before validating has no effect. */
  lemma ValidateOverwritesStatus(r: UdiRecord, s: RecordStatus)
    ensures ValidateRecord(r.(status := s)) == ValidateRecord(r)
  {
    ValidateIgnoresDerivedFields(r.(status := s), r);
  }

  /** A required-field message is reported exactly when that field is empty. */
  lemma RequiredErrorsIff(r: UdiRecord)
    ensures DeviceRequired in RecordErrors(r) <==> r.deviceIdentifier == ""
    ensures ManufacturerRequired in RecordErrors(r) <==> r.manufacturerName == ""
    ensures ProductRequired in RecordErrors(r) <==> r.productName == ""
  {
    MessagesDistinct();
    DateErrorsMessages(r.productionDate);
    DateErrorsMessages(r.expirationDate);
    var b0 := if r.deviceIdentifier == "" then [DeviceRequired] else [];
    var b1 := if r.manufacturerName == "" then [ManufacturerRequired] else [];
    var b2 := if r.productName == "" then [ProductRequired] else [];
    var b3 := DateErrors(r.productionDate) + DateErrors(r.expirationDate);
    var b4 := if r.deviceIdentifier != "" && |r.deviceIdentifier| < 5 then [IdentifierLength] else [];
    assert RecordErrors(r) == b0 + b1 + b2 + b3 + b4;
    assert DeviceRequired !in b3 && ManufacturerRequired !in b3 && ProductRequired !in b3;
  }

  /** A date field contributes only date messages. */
  lemma DateErrorsMessages(value: string)
    ensures |DateErrors(value)| <= 1
    ensures forall m :: m in DateErrors(value) ==> m == DateFormatMessage || m == InvalidDateMessage
  {
  }

  /** An empty identifier is reported as required and not as too short; a
      non-empty identifier under 5 characters is reported as too short. */
  lemma IdentifierErrors(r: UdiRecord)
    ensures r.deviceIdentifier == "" ==>
      DeviceRequired in RecordErrors(r) && IdentifierLength !in RecordErrors(r)
    ensures 0 < |r.deviceIdentifier| < 5 ==>
      IdentifierLength in RecordErrors(r) && DeviceRequired !in RecordErrors(r)
    ensures |r.deviceIdentifier| >= 5 ==>
      IdentifierLength !in RecordErrors(r) && DeviceRequired !in RecordErrors(r)
  {
    MessagesDistinct();
  }

  /** At most one warning exists, and it exists exactly when both dates are
      present, the expiration date is valid, and production is later. */
  lemma DateWarningIff(r: UdiRecord)
    ensures |RecordWarnings(r)| <= 1
    ensures RecordWarnings(r) != [] <==>
      r.productionDate != "" && r.expirationDate != "" && Parses(r.expirationDate) &&
      Parses(r.productionDate) && DateKey(r.productionDate) > DateKey(r.expirationDate)
    ensures RecordWarnings(r) != [] ==> RecordWarnings(r) == [DateOrderWarning]
  {
  }

  /** The rank of an error message in the fixed check order: required
      fields, then dates, then identifier length. */
  function Rank(m: string): int
  {
    if m == DeviceRequired then 0
    else if m == ManufacturerRequired then 1
    else if m == ProductRequired then 2
    else if m == IdentifierLength then 4
    else 3
  }

  lemma MessagesDistinct()
    ensures DeviceRequired != ManufacturerRequired && DeviceRequired != ProductRequired
    ensures ManufacturerRequired != ProductRequired
    ensures DeviceRequired != IdentifierLength && ManufacturerRequired != IdentifierLength
    ensures ProductRequired != IdentifierLength
    ensures DateFormatMessage != DeviceRequired && DateFormatMessage != ManufacturerRequired
    ensures DateFormatMessage != ProductRequired && DateFormatMessage != IdentifierLength
    ensures InvalidDateMessage != DeviceRequired && InvalidDateMessage != ManufacturerRequired
    ensures InvalidDateMessage != ProductRequired && InvalidDateMessage != IdentifierLength
  {
    assert DeviceRequired[0] != ManufacturerRequired[0];
    assert DeviceRequired[0] != ProductRequired[0];
    assert ManufacturerRequired[0] != ProductRequired[0];
    assert DeviceRequired[7] != IdentifierLength[7];
  }

  /** `a` may be reported before `b`: a strictly earlier check, or two date checks. */
  predicate Before(a: string, b: string)
  {
    Rank(a) < Rank(b) || (Rank(a) == 3 && Rank(b) == 3)
  }

  predicate InCheckOrder(e: seq<string>)
  {
    forall i, j :: 0 <= i < j < |e| ==> Before(e[i], e[j])
  }

  lemma AppendInCheckOrder(a: seq<string>, b: seq<string>)
    requires InCheckOrder(a) && InCheckOrder(b)
    requires forall x, y :: x in a && y in b ==> Before(x, y)
    ensures InCheckOrder(a + b)
  {
    forall i, j | 0 <= i < j < |a + b| ensures Before((a + b)[i], (a + b)[j]) {
      if j < |a| {
      } else if i >= |a| {
        assert (a + b)[i] == b[i - |a|] && (a + b)[j] == b[j - |a|];
      } else {
        assert (a + b)[i] in a && (a + b)[j] in b;
      }
    }
  }

  /** Errors appear in the fixed check order and there are at most six. */
  lemma ErrorsInCheckOrder(r: UdiRecord)
    ensures |RecordErrors(r)| <= 6
    ensures InCheckOrder(RecordErrors(r))
  {
    MessagesDistinct();
    var b0 := if r.deviceIdentifier == "" then [DeviceRequired] else [];
    var b1 := if r.manufacturerName == "" then [ManufacturerRequired] else [];
    var b2 := if r.productName == "" then [ProductRequired] else [];
    var b3 := DateErrors(r.productionDate);
    var b4 := DateErrors(r.expirationDate);
    var b5 := if r.deviceIdentifier != "" && |r.deviceIdentifier| < 5 then [IdentifierLength] else [];
    assert forall m :: m in b3 + b4 ==> Rank(m) == 3;
    AppendInCheckOrder(b0, b1);
    AppendInCheckOrder(b0 + b1, b2);
    assert forall m :: m in b0 + b1 + b2 ==> Rank(m) <= 2;
    AppendInCheckOrder(b0 + b1 + b2, b3);
    assert forall m :: m in b0 + b1 + b2 + b3 ==> Rank(m) <= 3;
    AppendInCheckOrder(b0 + b1 + b2 + b3, b4);
    assert forall m :: m in b0 + b1 + b2 + b3 + b4 ==> Rank(m) <= 3;
    AppendInCheckOrder(b0 + b1 + b2 + b3 + b4, b5);
    assert RecordErrors(r) == b0 + b1 + b2 + b3 + b4 + b5;
  }
}
