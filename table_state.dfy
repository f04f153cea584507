/** The table edit controller: the static column table, and the state
    machine that owns the records, the edit cursor and the pending value. */
module TableState {
  import opened JsStrings
  import opened Seqs
  import opened UdiTypes
  import opened Validators
  import opened FilterUtils

  datatype ColumnType = TextType | BooleanType | DateType

  /** One column of the grid. `kind` is `None` where the source leaves the type unset. */
  datatype ColumnSpec = ColumnSpec(
    key: Column, displayLabel: string, editable: bool, required: bool,
    frozen: bool, width: string, kind: Option<ColumnType>)

  function Label(c: Column): string
  {
    match c
    case DeviceIdentifier => "Device Identifier"
    case ManufacturerName => "Manufacturer"
    case ProductName => "Product"
    case ModelNumber => "Model #"
    case SingleUse => "Single Use"
    case Sterilized => "Sterilized"
    case ContainsLatex => "Contains Latex"
    case ContainsPhthalate => "Contains Phthalate"
    case ProductionDate => "Production Date"
    case ExpirationDate => "Expiration Date"
    case LotNumber => "Lot #"
    case SerialNumber => "Serial #"
    case Status => "Status"
  }

  /** The place of each column in the table's display order. */
  function Position(c: Column): nat
  {
    match c
    case DeviceIdentifier => 0
    case ManufacturerName => 1
    case ProductName => 2
    case ModelNumber => 3
    case SingleUse => 4
    case Sterilized => 5
    case ContainsLatex => 6
    case ContainsPhthalate => 7
    case ProductionDate => 8
    case ExpirationDate => 9
    case LotNumber => 10
    case SerialNumber => 11
    case Status => 12
  }

  /** The column shown at place `i`. */
  function ColumnAt(i: nat): (c: Column)
    requires i < 13
    ensures Position(c) == i
  {
    if i == 0 then DeviceIdentifier
    else if i == 1 then ManufacturerName
    else if i == 2 then ProductName
    else if i == 3 then ModelNumber
    else if i == 4 then SingleUse
    else if i == 5 then Sterilized
    else if i == 6 then ContainsLatex
    else if i == 7 then ContainsPhthalate
    else if i == 8 then ProductionDate
    else if i == 9 then ExpirationDate
    else if i == 10 then LotNumber
    else if i == 11 then SerialNumber
    else Status
  }

  /** The entry of the column table for `c`. */
  function Spec(c: Column, viewMode: bool): (col: ColumnSpec)
    ensures col.key == c && col.displayLabel == Label(c)
    ensures col.editable <==> c != Status && !viewMode
    ensures col.frozen <==> c == DeviceIdentifier || c == ManufacturerName
    ensures col.required <==> c in [DeviceIdentifier, ManufacturerName, ProductName]
    ensures col.kind == Some(BooleanType) <==> IsBooleanKey(c)
    ensures col.kind == Some(DateType) <==> IsDateKey(c)
  {
    var e := !viewMode;
    match c
    case DeviceIdentifier => ColumnSpec(c, Label(c), e, true, true, "200px", None)
    case ManufacturerName => ColumnSpec(c, Label(c), e, true, true, "180px", None)
    case ProductName => ColumnSpec(c, Label(c), e, true, false, "180px", None)
    case ModelNumber => ColumnSpec(c, Label(c), e, false, false, "120px", None)
    case SingleUse => ColumnSpec(c, Label(c), e, false, false, "100px", Some(BooleanType))
    case Sterilized => ColumnSpec(c, Label(c), e, false, false, "100px", Some(BooleanType))
    case ContainsLatex => ColumnSpec(c, Label(c), e, false, false, "120px", Some(BooleanType))
    case ContainsPhthalate => ColumnSpec(c, Label(c), e, false, false, "150px", Some(BooleanType))
    case ProductionDate => ColumnSpec(c, Label(c), e, false, false, "150px", Some(DateType))
    case ExpirationDate => ColumnSpec(c, Label(c), e, false, false, "150px", Some(DateType))
    case LotNumber => ColumnSpec(c, Label(c), e, false, false, "120px", None)
    case SerialNumber => ColumnSpec(c, Label(c), e, false, false, "120px", None)
    case Status => ColumnSpec(c, Label(c), false, false, false, "100px", None)
  }

  /** The column table, in display order. */
  function Columns(viewMode: bool): (cols: seq<ColumnSpec>)
    ensures |cols| == 13
    ensures forall i :: 0 <= i < |cols| ==> Position(cols[i].key) == i
    ensures forall i :: 0 <= i < |cols| ==>
      (cols[i].editable <==> cols[i].key != Status && !viewMode)
    ensures forall i, j :: 0 <= i < j < |cols| ==> cols[i].key != cols[j].key
    ensures forall i :: 0 <= i < |cols| ==>
      (cols[i].frozen <==> cols[i].key == DeviceIdentifier || cols[i].key == ManufacturerName)
    ensures forall i :: 0 <= i < |cols| ==>
      (cols[i].required <==> cols[i].key in [DeviceIdentifier, ManufacturerName, ProductName])
    ensures forall i :: 0 <= i < |cols| ==>
      (cols[i].kind == Some(BooleanType) <==> IsBooleanKey(cols[i].key)) &&
      (cols[i].kind == Some(DateType) <==> IsDateKey(cols[i].key))
    ensures forall i :: 0 <= i < |cols| ==> cols[i].displayLabel == Label(cols[i].key)
  {
    seq(13, i requires 0 <= i < 13 => Spec(ColumnAt(i), viewMode))
  }

  predicate IsFrozen(col: ColumnSpec)
  {
    col.frozen
  }

  predicate IsScrollable(col: ColumnSpec)
  {
    !col.frozen
  }

  /** `frozenColumns`: the frozen columns, in table order. */
  function FrozenColumns(viewMode: bool): (cols: seq<ColumnSpec>)
    ensures forall col :: col in cols <==> col in Columns(viewMode) && col.frozen
    ensures IsSubsequence(cols, Columns(viewMode))
  {
    KeepIsSubsequence(Columns(viewMode), IsFrozen);
    Keep(Columns(viewMode), IsFrozen)
  }

  /** `scrollableColumns`: the other columns, in table order. */
  function ScrollableColumns(viewMode: bool): (cols: seq<ColumnSpec>)
    ensures forall col :: col in cols <==> col in Columns(viewMode) && !col.frozen
    ensures IsSubsequence(cols, Columns(viewMode))
  {
    KeepIsSubsequence(Columns(viewMode), IsScrollable);
    Keep(Columns(viewMode), IsScrollable)
  }

  /** The frozen and scrollable lists split the columns between them, in
      order, and the frozen ones are the identifier and the manufacturer. */
  lemma FrozenSplit(viewMode: bool)
    ensures |FrozenColumns(viewMode)| == 2
    ensures FrozenColumns(viewMode)[0].key == DeviceIdentifier
    ensures FrozenColumns(viewMode)[1].key == ManufacturerName
    ensures FrozenColumns(viewMode) + ScrollableColumns(viewMode) == Columns(viewMode)
  {
    var cols := Columns(viewMode);
    assert cols[0].key == DeviceIdentifier && cols[1].key == ManufacturerName;
    KeepPrefix(cols, 2, IsFrozen);
    KeepSuffix(cols, 2, IsScrollable);
    assert cols[..2] + cols[2..] == cols;
  }

  /** `isColumnFiltered`: some active filter is on the column. */
  predicate IsColumnFiltered(filters: seq<FilterOption>, c: Column)
    ensures IsColumnFiltered(filters, c) <==> Count(filters, (f: FilterOption) => f.column == c) > 0
  {
    var kept := Keep(filters, (f: FilterOption) => f.column == c);
    assert |kept| > 0 ==> kept[0] in kept;
    exists f :: f in filters && f.column == c
  }

  /** The text the editor starts from: "true"/"false" for a boolean column,
      the stored text for the others. */
  function SeedValue(r: UdiRecord, c: Column): (v: string)
    ensures IsBooleanKey(c) && Get(r, c) == FlagValue(Bool(true)) ==> v == "true"
    ensures IsBooleanKey(c) && Get(r, c) == FlagValue(Bool(false)) ==> v == "false"
    ensures Get(r, c).Text? ==> v == Get(r, c).s
  {
    if IsBooleanKey(c) then FlagString(Get(r, c).f)
    else match Get(r, c)
      case Text(s) => s
      case StatusValue(st) => StatusName(st)
      case FlagValue(f) => FlagString(f)
  }

  /** The assignment `handleSave` makes before validation: a boolean column
      stores whether the text is "true", any other column stores the text. */
  function Assign(r: UdiRecord, c: Column, editValue: string): (u: UdiRecord)
    ensures u.id == r.id && u.isLocked == r.isLocked
    ensures IsBooleanKey(c) ==> Get(u, c) == FlagValue(Bool(editValue == "true"))
    ensures !IsBooleanKey(c) && c != Status ==> Get(u, c) == Text(editValue)
    ensures forall d :: d != c ==> Get(u, d) == Get(r, d)
    ensures u.errors == r.errors && u.warnings == r.warnings
    ensures WellTyped(r) ==> WellTyped(u)
  {
    var u := if IsBooleanKey(c) then SetBool(r, c, editValue == "true") else SetRaw(r, c, editValue);
    assert WellTyped(r) ==> WellTyped(u) by {
      if WellTyped(r) {
        assert Get(u, SingleUse).f.Bool? && Get(u, Sterilized).f.Bool?;
        assert Get(u, ContainsLatex).f.Bool? && Get(u, ContainsPhthalate).f.Bool?;
      }
    }
    u
  }

  /** The record after committing `editValue` to column `c` and re-validating it. */
  function CommitRecord(r: UdiRecord, c: Column, editValue: string): (v: UdiRecord)
    ensures v.id == r.id && v.isLocked == r.isLocked
    ensures IsBooleanKey(c) ==> Get(v, c) == FlagValue(Bool(editValue == "true"))
    ensures !IsBooleanKey(c) && c != Status ==> Get(v, c) == Text(editValue)
    ensures forall d :: d != c && d != Status ==> Get(v, d) == Get(r, d)
    ensures v.status != Pending && v.errors.Some? && (v.status == Invalid <==> v.errors.value != [])
    ensures ValidateRecord(v) == v
    ensures WellTyped(r) ==> WellTyped(v)
  {
    var u := Assign(r, c, editValue);
    SameDataAgrees(u, ValidateRecord(u));
    ValidateIdempotent(u);
    ValidateRecord(u)
  }

  /** Opening a cell and saving it without typing changes only the derived fields. */
  lemma SeedThenCommit(r: UdiRecord, c: Column)
    requires WellTyped(r)
    ensures CommitRecord(r, c, SeedValue(r, c)) == ValidateRecord(r)
  {
    assert Assign(r, c, SeedValue(r, c)) == r;
  }

  /** `handleSave`'s map: each record with id `rowId` is committed, every other record is kept. */
  function CommitRows(records: seq<UdiRecord>, rowId: string, c: Column, editValue: string): (out: seq<UdiRecord>)
    ensures |out| == |records|
    ensures forall i :: 0 <= i < |records| && records[i].id != rowId ==> out[i] == records[i]
    ensures forall i :: 0 <= i < |records| && records[i].id == rowId ==>
      out[i] == CommitRecord(records[i], c, editValue)
    ensures forall i :: 0 <= i < |records| ==> out[i].id == records[i].id && out[i].isLocked == records[i].isLocked
  {
    seq(|records|, i requires 0 <= i < |records| =>
      if records[i].id == rowId then CommitRecord(records[i], c, editValue) else records[i])
  }

  /** `toggleLock`'s map: the lock flag of each record with id `id` flips; nothing else changes. */
  function ToggleRows(records: seq<UdiRecord>, id: string): (out: seq<UdiRecord>)
    ensures |out| == |records|
    ensures forall i :: 0 <= i < |records| ==>
      out[i] == if records[i].id == id then records[i].(isLocked := !records[i].isLocked) else records[i]
  {
    seq(|records|, i requires 0 <= i < |records| =>
      if records[i].id == id then records[i].(isLocked := !records[i].isLocked) else records[i])
  }

  /** Toggling the same id twice restores the records. */
  lemma ToggleTwice(records: seq<UdiRecord>, id: string)
    ensures ToggleRows(ToggleRows(records, id), id) == records
  {
  }

  /** The cell under edit. */
  datatype Cell = Cell(rowId: string, column: Column)

  /** The state of `useUDITable`. */
  class UdiTable {
    var records: seq<UdiRecord>
    var editingCell: Option<Cell>
    var editValue: string
    const viewMode: bool
    const activeFilters: seq<FilterOption>

    /** In view-only mode no cell is ever under edit. */
    ghost predicate Inv()
      reads this
    {
      viewMode ==> editingCell == None
    }

    constructor (data: seq<UdiRecord>, activeFilters: seq<FilterOption>, viewMode: bool)
      ensures Inv()
      ensures records == data && editingCell == None && editValue == ""
      ensures this.activeFilters == activeFilters && this.viewMode == viewMode
    {
      records := data;
      editingCell := None;
      editValue := "";
      this.activeFilters := activeFilters;
      this.viewMode := viewMode;
    }

    /** `isColumnFiltered` over the table's active filters: some filter is on the column. */
    predicate ColumnFiltered(column: Column)
      ensures ColumnFiltered(column) <==> exists i :: 0 <= i < |activeFilters| && activeFilters[i].column == column
    {
      IsColumnFiltered(activeFilters, column)
    }

    /** The effect that copies new data into `records`. */
    method SyncData(data: seq<UdiRecord>)
      requires Inv()
      modifies this`records
      ensures Inv() && records == data
    {
      records := data;
    }

    /** Nothing happens on a locked record or in view-only mode; otherwise
        the cursor moves to the cell and the pending value is seeded from it. */
    method StartEditing(record: UdiRecord, column: Column)
      requires Inv()
      modifies this`editingCell, this`editValue
      ensures Inv()
      ensures record.isLocked || viewMode ==>
        editingCell == old(editingCell) && editValue == old(editValue)
      ensures !record.isLocked && !viewMode ==>
        editingCell == Some(Cell(record.id, column)) && editValue == SeedValue(record, column)
    {
      if record.isLocked || viewMode {
        return;
      }
      editingCell := Some(Cell(record.id, column));
      editValue := SeedValue(record, column);
    }

    method SetEditValue(value: string)
      requires Inv()
      modifies this`editValue
      ensures Inv() && editValue == value
    {
      editValue := value;
    }

    /** Without a cursor, or in view-only mode, nothing happens and nothing
        is reported. Otherwise only the rows with the cursor's id are
        committed, the cursor is cleared and the new records are reported. */
    method HandleSave() returns (changed: Option<seq<UdiRecord>>)
      requires Inv()
      modifies this`records, this`editingCell
      ensures Inv()
      ensures old(editingCell).None? || viewMode ==>
        changed == None && records == old(records) && editingCell == old(editingCell)
      ensures old(editingCell).Some? && !viewMode ==>
        records == CommitRows(old(records), old(editingCell).value.rowId, old(editingCell).value.column, editValue) &&
        editingCell == None && changed == Some(records)
    {
      if editingCell.None? || viewMode {
        return None;
      }
      var cell := editingCell.value;
      records := CommitRows(records, cell.rowId, cell.column, editValue);
      editingCell := None;
      changed := Some(records);
    }

    method CancelEditing()
      requires Inv()
      modifies this`editingCell
      ensures Inv() && editingCell == None
    {
      editingCell := None;
    }

    /** In view-only mode nothing happens; otherwise the lock flag of the
        rows with that id flips, without re-validation. */
    method ToggleLock(id: string) returns (changed: Option<seq<UdiRecord>>)
      requires Inv()
      modifies this`records
      ensures Inv()
      ensures viewMode ==> changed == None && records == old(records)
      ensures !viewMode ==> records == ToggleRows(old(records), id) && changed == Some(records)
    {
      if viewMode {
        return None;
      }
      records := ToggleRows(records, id);
      changed := Some(records);
    }
  }
}
