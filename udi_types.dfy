/** The entities of the editor: the UDI record, its columns, and the GMDN
    sub-record. Generic `record[column]` access is `Get` and `SetRaw`. */
module UdiTypes {
  import opened JsStrings

  datatype RecordStatus = Valid | Invalid | Warning | Pending

  function StatusName(s: RecordStatus): string
  {
    match s
    case Valid => "valid"
    case Invalid => "invalid"
    case Warning => "warning"
    case Pending => "pending"
  }

  /** What a boolean column holds at run time. The fields are declared
      boolean, but an assignment through a string-typed column key can store
      a string in them (`Str`). */
  datatype Flag = Bool(b: bool) | Str(s: string)

  /** `Boolean(value)`: how the table decides whether a boolean cell is ticked. */
  predicate Truthy(f: Flag)
  {
    match f
    case Bool(b) => b
    case Str(s) => s != ""
  }

  /** `String(value)`. */
  function FlagString(f: Flag): string
  {
    match f
    case Bool(b) => if b then "true" else "false"
    case Str(s) => s
  }

  datatype UdiRecord = UdiRecord(
    id: string,
    deviceIdentifier: string,
    manufacturerName: string,
    productName: string,
    modelNumber: string,
    productionDate: string,
    expirationDate: string,
    lotNumber: string,
    serialNumber: string,
    singleUse: Flag,
    sterilized: Flag,
    containsLatex: Flag,
    containsPhthalate: Flag,
    status: RecordStatus,
    errors: Option<seq<string>>,
    warnings: Option<seq<string>>,
    isLocked: bool)

  /** Every boolean column holds a boolean. */
  predicate WellTyped(r: UdiRecord)
  {
    r.singleUse.Bool? && r.sterilized.Bool? && r.containsLatex.Bool? && r.containsPhthalate.Bool?
  }

  /** The keys of the record that the table shows as columns. */
  datatype Column =
    | DeviceIdentifier | ManufacturerName | ProductName | ModelNumber
    | SingleUse | Sterilized | ContainsLatex | ContainsPhthalate
    | ProductionDate | ExpirationDate | LotNumber | SerialNumber | Status

  /** The property name of the column in the record. */
  function Key(c: Column): string
  {
    match c
    case DeviceIdentifier => "deviceIdentifier"
    case ManufacturerName => "manufacturerName"
    case ProductName => "productName"
    case ModelNumber => "modelNumber"
    case SingleUse => "singleUse"
    case Sterilized => "sterilized"
    case ContainsLatex => "containsLatex"
    case ContainsPhthalate => "containsPhthalate"
    case ProductionDate => "productionDate"
    case ExpirationDate => "expirationDate"
    case LotNumber => "lotNumber"
    case SerialNumber => "serialNumber"
    case Status => "status"
  }

  /** The hard-coded key list that the edit logic treats as boolean. */
  predicate IsBooleanKey(c: Column)
  {
    c in [SingleUse, Sterilized, ContainsLatex, ContainsPhthalate]
  }

  /** The hard-coded key list that the edit logic treats as dates. */
  predicate IsDateKey(c: Column)
  {
    c in [ProductionDate, ExpirationDate]
  }

  /** The value of `record[column]`. */
  datatype Value = Text(s: string) | FlagValue(f: Flag) | StatusValue(st: RecordStatus)

  function Get(r: UdiRecord, c: Column): (v: Value)
    ensures v.FlagValue? <==> IsBooleanKey(c)
    ensures v.StatusValue? <==> c == Status
  {
    match c
    case DeviceIdentifier => Text(r.deviceIdentifier)
    case ManufacturerName => Text(r.manufacturerName)
    case ProductName => Text(r.productName)
    case ModelNumber => Text(r.modelNumber)
    case SingleUse => FlagValue(r.singleUse)
    case Sterilized => FlagValue(r.sterilized)
    case ContainsLatex => FlagValue(r.containsLatex)
    case ContainsPhthalate => FlagValue(r.containsPhthalate)
    case ProductionDate => Text(r.productionDate)
    case ExpirationDate => Text(r.expirationDate)
    case LotNumber => Text(r.lotNumber)
    case SerialNumber => Text(r.serialNumber)
    case Status => StatusValue(r.status)
  }

  /** `record[column] = value` with a string value. A boolean column then
      holds the string. Writing the status column is left as a no-op: every
      caller passes the record to the validator next, which overwrites the
      status (see `Validators.ValidateOverwritesStatus`). */
  function SetRaw(r: UdiRecord, c: Column, value: string): (r': UdiRecord)
    ensures c != Status && !IsBooleanKey(c) ==> Get(r', c) == Text(value)
    ensures IsBooleanKey(c) ==> Get(r', c) == FlagValue(Str(value))
    ensures forall d :: d != c ==> Get(r', d) == Get(r, d)
    ensures r'.id == r.id && r'.isLocked == r.isLocked
    ensures r'.errors == r.errors && r'.warnings == r.warnings
  {
    match c
    case DeviceIdentifier => r.(deviceIdentifier := value)
    case ManufacturerName => r.(manufacturerName := value)
    case ProductName => r.(productName := value)
    case ModelNumber => r.(modelNumber := value)
    case SingleUse => r.(singleUse := Str(value))
    case Sterilized => r.(sterilized := Str(value))
    case ContainsLatex => r.(containsLatex := Str(value))
    case ContainsPhthalate => r.(containsPhthalate := Str(value))
    case ProductionDate => r.(productionDate := value)
    case ExpirationDate => r.(expirationDate := value)
    case LotNumber => r.(lotNumber := value)
    case SerialNumber => r.(serialNumber := value)
    case Status => r
  }

  /** `record[column] = b` for a boolean column. */
  function SetBool(r: UdiRecord, c: Column, b: bool): (r': UdiRecord)
    requires IsBooleanKey(c)
    ensures Get(r', c) == FlagValue(Bool(b))
    ensures forall d :: d != c ==> Get(r', d) == Get(r, d)
    ensures r'.id == r.id && r'.isLocked == r.isLocked
    ensures r'.errors == r.errors && r'.warnings == r.warnings
  {
    match c
    case SingleUse => r.(singleUse := Bool(b))
    case Sterilized => r.(sterilized := Bool(b))
    case ContainsLatex => r.(containsLatex := Bool(b))
    case ContainsPhthalate => r.(containsPhthalate := Bool(b))
  }

  /** A GMDN nomenclature entry attached to a device. */
  datatype GmdnRecord = GmdnRecord(
    id: string,
    deviceIdentifier: string,
    gmdnCode: string,
    gmdnTerm: string,
    status: RecordStatus,
    isLocked: bool)
}
