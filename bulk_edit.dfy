/** The bulk editor: one field set on every unlocked record of the visible
    subset, each changed record re-validated, locked records passed through. */
module BulkEditor {
  import opened JsStrings
  import opened Seqs
  import opened UdiTypes
  import opened Validators
  import opened TableState

  predicate IsUnlocked(r: UdiRecord)
  {
    !r.isLocked
  }

  predicate IsLocked(r: UdiRecord)
  {
    r.isLocked
  }

  predicate IsEditable(col: ColumnSpec)
  {
    col.editable
  }

  /** One unlocked record as the dialog's update writes it: the raw text
      stored in the field, then the record re-validated. */
  function AsWrittenRecord(r: UdiRecord, field: Column, newValue: string): (v: UdiRecord)
    ensures v.id == r.id && v.isLocked == r.isLocked
    ensures IsBooleanKey(field) ==> Get(v, field) == FlagValue(Str(newValue))
    ensures !IsBooleanKey(field) && field != Status ==> Get(v, field) == Text(newValue)
    ensures forall d :: d != field && d != Status ==> Get(v, d) == Get(r, d)
    ensures v.status != Pending && v.errors.Some? && (v.status == Invalid <==> v.errors.value != [])
    ensures ValidateRecord(v) == v
  {
    var u := SetRaw(r, field, newValue);
    SameDataAgrees(u, ValidateRecord(u));
    ValidateIdempotent(u);
    ValidateRecord(u)
  }

  /** The dialog's update as the code writes it: the raw text is stored in
      the field, whatever the column's type, and the record is re-validated. */
  function BulkEditAsWritten(records: seq<UdiRecord>, field: Column, newValue: string): (out: seq<UdiRecord>)
    ensures |out| == |records|
    ensures forall i :: 0 <= i < |records| && records[i].isLocked ==> out[i] == records[i]
    ensures forall i :: 0 <= i < |records| ==> out[i].id == records[i].id && out[i].isLocked == records[i].isLocked
    ensures forall i :: 0 <= i < |records| && !records[i].isLocked ==>
      (IsBooleanKey(field) ==> Get(out[i], field) == FlagValue(Str(newValue))) &&
      (!IsBooleanKey(field) && field != Status ==> Get(out[i], field) == Text(newValue)) &&
      (forall d :: d != field && d != Status ==> Get(out[i], d) == Get(records[i], d)) &&
      out[i].status != Pending && out[i].errors.Some? &&
      (out[i].status == Invalid <==> out[i].errors.value != []) &&
      ValidateRecord(out[i]) == out[i]
  {
    seq(|records|, i requires 0 <= i < |records| =>
      if records[i].isLocked then records[i]
      else AsWrittenRecord(records[i], field, newValue))
  }

  /** The update with the coercion a single-cell save applies: a boolean
      column stores whether the text is "true". */
  function BulkEdit(records: seq<UdiRecord>, field: Column, newValue: string): (out: seq<UdiRecord>)
    ensures |out| == |records|
    ensures forall i :: 0 <= i < |records| && records[i].isLocked ==> out[i] == records[i]
    ensures forall i :: 0 <= i < |records| ==> out[i].id == records[i].id && out[i].isLocked == records[i].isLocked
    ensures forall i :: 0 <= i < |records| && !records[i].isLocked ==>
      (IsBooleanKey(field) ==> Get(out[i], field) == FlagValue(Bool(newValue == "true"))) &&
      (!IsBooleanKey(field) && field != Status ==> Get(out[i], field) == Text(newValue)) &&
      (forall d :: d != field && d != Status ==> Get(out[i], d) == Get(records[i], d)) &&
      out[i].status != Pending && out[i].errors.Some? &&
      (out[i].status == Invalid <==> out[i].errors.value != []) &&
      ValidateRecord(out[i]) == out[i]
    ensures forall i :: 0 <= i < |records| && WellTyped(records[i]) ==> WellTyped(out[i])
  {
    seq(|records|, i requires 0 <= i < |records| =>
      if records[i].isLocked then records[i] else CommitRecord(records[i], field, newValue))
  }

  /** Each unlocked record comes out of a bulk edit exactly as a single-cell
      save of the same text on that record would leave it. */
  lemma BulkEditIsCellSave(records: seq<UdiRecord>, field: Column, newValue: string, i: int)
    requires 0 <= i < |records| && !records[i].isLocked
    ensures BulkEdit(records, field, newValue)[i] == CommitRows(records, records[i].id, field, newValue)[i]
  {
  }

  /** Outside the boolean columns the code as written and the coercing update agree. */
  lemma AsWrittenAgreesOffBooleans(records: seq<UdiRecord>, field: Column, newValue: string)
    requires !IsBooleanKey(field)
    ensures BulkEditAsWritten(records, field, newValue) == BulkEdit(records, field, newValue)
  {
    forall i | 0 <= i < |records|
      ensures BulkEditAsWritten(records, field, newValue)[i] == BulkEdit(records, field, newValue)[i]
    {
      if !records[i].isLocked {
        assert Assign(records[i], field, newValue) == SetRaw(records[i], field, newValue);
      }
    }
  }

  /** Typing "false" for a boolean column of an unlocked record stores the
      text "false", which the table shows as ticked, and the record no longer
      holds a boolean there. */
  lemma AsWrittenFalseIsTicked(r: UdiRecord, c: Column)
    requires !r.isLocked && IsBooleanKey(c)
    ensures Get(BulkEditAsWritten([r], c, "false")[0], c) == FlagValue(Str("false"))
    ensures Truthy(Get(BulkEditAsWritten([r], c, "false")[0], c).f)
    ensures !WellTyped(BulkEditAsWritten([r], c, "false")[0])
  {
    var out := BulkEditAsWritten([r], c, "false");
    assert Get(out[0], c) == FlagValue(Str("false"));
  }

  /** With the coercion, "false" clears the flag and the record stays well typed. */
  lemma CoercedFalseIsCleared(r: UdiRecord, c: Column)
    requires !r.isLocked && IsBooleanKey(c) && WellTyped(r)
    ensures Get(BulkEdit([r], c, "false")[0], c) == FlagValue(Bool(false))
    ensures !Truthy(Get(BulkEdit([r], c, "false")[0], c).f)
    ensures WellTyped(BulkEdit([r], c, "false")[0])
  {
    var out := BulkEdit([r], c, "false");
    assert Get(out[0], c) == FlagValue(Bool(false));
  }

  /** The number of records the edit will change. */
  function UnlockedCount(records: seq<UdiRecord>): (n: nat)
    ensures n <= |records|
  {
    Count(records, IsUnlocked)
  }

  /** `getAffectedRecordsCount`: (will be updated, total, locked). */
  function AffectedCounts(records: seq<UdiRecord>): (counts: (nat, nat, nat))
    ensures counts.0 == UnlockedCount(records) && counts.1 == |records|
    ensures counts.0 + counts.2 == counts.1
    ensures counts.2 == Count(records, IsLocked)
  {
    CountComplement(records, IsUnlocked, IsLocked);
    (UnlockedCount(records), |records|, |records| - UnlockedCount(records))
  }

  /** `editableColumns`: the columns offered as targets. */
  function EditableColumns(cols: seq<ColumnSpec>): (targets: seq<ColumnSpec>)
    ensures forall col :: col in targets <==> col in cols && col.editable
    ensures IsSubsequence(targets, cols)
  {
    KeepIsSubsequence(cols, IsEditable);
    Keep(cols, IsEditable)
  }

  /** Over the editor's column table: the status column is never offered; in
      view-only mode nothing is; otherwise every other column is, in order. */
  lemma OfferedTargets(viewMode: bool)
    ensures forall col :: col in EditableColumns(Columns(viewMode)) ==> col.key != Status
    ensures viewMode ==> EditableColumns(Columns(viewMode)) == []
    ensures !viewMode ==> EditableColumns(Columns(viewMode)) == Columns(viewMode)[..12]
  {
    var cols := Columns(viewMode);
    if viewMode {
      assert forall col :: col in cols ==> !IsEditable(col);
      KeepNone(cols, IsEditable);
    } else {
      assert cols[12].key == Status;
      KeepPrefix(cols, 12, IsEditable);
    }
  }

  /** A target column the dialog offers. */
  predicate IsOffered(cols: seq<ColumnSpec>, c: Column)
  {
    exists i | 0 <= i < |cols| :: cols[i].editable && cols[i].key == c
  }

  /** The dialog's state: whether it is open, the chosen field (`None` for
      the empty selection) and the typed value. */
  class BulkEditDialog {
    const filteredRecords: seq<UdiRecord>
    const columns: seq<ColumnSpec>
    var open: bool
    var selectedField: Option<Column>
    var newValue: string

    /** Only an offered column can be selected. */
    ghost predicate Inv()
      reads this
    {
      selectedField.Some? ==> IsOffered(columns, selectedField.value)
    }

    constructor (filteredRecords: seq<UdiRecord>, columns: seq<ColumnSpec>)
      ensures Inv()
      ensures this.filteredRecords == filteredRecords && this.columns == columns
      ensures !open && selectedField == None && newValue == ""
    {
      this.filteredRecords := filteredRecords;
      this.columns := columns;
      open := false;
      selectedField := None;
      newValue := "";
    }

    method SetOpen(b: bool)
      requires Inv()
      modifies this`open
      ensures Inv() && open == b
    {
      open := b;
    }

    /** The field selector lists only the editable columns. */
    method SelectField(c: Column)
      requires Inv() && IsOffered(columns, c)
      modifies this`selectedField
      ensures Inv() && selectedField == Some(c)
    {
      selectedField := Some(c);
    }

    method SetNewValue(v: string)
      requires Inv()
      modifies this`newValue
      ensures Inv() && newValue == v
    {
      newValue := v;
    }

    /** `handleApplyChanges`: without a field or with an empty value nothing
        happens. Otherwise the subset updated as the code writes it (the raw
        text, also in boolean columns) is handed on, the number of
        unlocked records is reported, and the dialog closes with its fields
        reset. */
    method ApplyChanges() returns (update: Option<seq<UdiRecord>>, updatedCount: nat)
      requires Inv()
      modifies this`open, this`selectedField, this`newValue
      ensures Inv()
      ensures old(selectedField).None? || old(newValue) == "" ==>
        update == None && updatedCount == 0 &&
        open == old(open) && selectedField == old(selectedField) && newValue == old(newValue)
      ensures old(selectedField).Some? && old(newValue) != "" ==>
        update == Some(BulkEditAsWritten(filteredRecords, old(selectedField).value, old(newValue))) &&
        IsOffered(columns, old(selectedField).value) &&
        updatedCount == UnlockedCount(filteredRecords) &&
        !open && selectedField == None && newValue == ""
    {
      if selectedField.None? || newValue == "" {
        return None, 0;
      }
      update := Some(BulkEditAsWritten(filteredRecords, selectedField.value, newValue));
      updatedCount := UnlockedCount(filteredRecords);
      open := false;
      newValue := "";
      selectedField := None;
    }
  }
}
