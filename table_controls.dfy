/** The whole-table buttons: validate all, lock all, unlock all, import,
    and the status counts shown beside them. */
module TableControls {
  import opened Seqs
  import opened UdiTypes
  import opened Validators
  import opened BulkEditor

  /** The number of records with status `s`. */
  function CountStatus(records: seq<UdiRecord>, s: RecordStatus): (n: nat)
    ensures n <= |records|
    ensures n > 0 <==> exists i :: 0 <= i < |records| && records[i].status == s
  {
    var p := (r: UdiRecord) => r.status == s;
    var kept := Keep(records, p);
    assert (exists i :: 0 <= i < |records| && records[i].status == s) ==> |kept| > 0 by {
      if i :| 0 <= i < |records| && records[i].status == s {
        assert records[i] in kept;
      }
    }
    assert |kept| > 0 ==> exists i :: 0 <= i < |records| && records[i].status == s by {
      if |kept| > 0 {
        assert kept[0] in kept;
        var i :| 0 <= i < |records| && records[i] == kept[0];
      }
    }
    Count(records, p)
  }

  /** Every record has exactly one of the four statuses. */
  lemma {:induction false} StatusCountsPartition(records: seq<UdiRecord>)
    ensures CountStatus(records, Valid) + CountStatus(records, Warning) +
      CountStatus(records, Invalid) + CountStatus(records, Pending) == |records|
  {
    if records != [] {
      StatusCountsPartition(records[1..]);
    }
  }

  /** The three counts the controls show cover at most every record; only a
      pending record is in none of them. */
  lemma ShownCountsBound(records: seq<UdiRecord>)
    ensures CountStatus(records, Valid) + CountStatus(records, Warning) + CountStatus(records, Invalid) <= |records|
    ensures CountStatus(records, Pending) == 0 ==>
      CountStatus(records, Valid) + CountStatus(records, Warning) + CountStatus(records, Invalid) == |records|
  {
    StatusCountsPartition(records);
  }

  /** The message `validateAll` shows, by the first case that applies. */
  datatype ValidationSummary =
    | FoundInvalid(invalidCount: nat, warningCount: nat, validCount: nat)
    | ValidWithWarnings(warningCount: nat)
    | AllValid

  /** A validated record is invalid exactly when it fails a check, and has
      a warning status exactly when it passes every check but warns. */
  lemma ValidatedStatuses(data: seq<UdiRecord>)
    ensures forall i :: 0 <= i < |data| ==>
      (ValidateRecords(data)[i].status == Invalid <==> RecordErrors(data[i]) != []) &&
      (ValidateRecords(data)[i].status == Warning <==> RecordErrors(data[i]) == [] && RecordWarnings(data[i]) != [])
  {
  }

  /** No validated record is invalid exactly when every record passes every check. */
  lemma NoInvalidAfterValidate(data: seq<UdiRecord>)
    ensures CountStatus(ValidateRecords(data), Invalid) == 0 <==> forall i :: 0 <= i < |data| ==> RecordErrors(data[i]) == []
  {
    ValidatedStatuses(data);
  }

  /** Among records that pass every check, none has a warning status exactly when none warns. */
  lemma NoWarningAfterValidate(data: seq<UdiRecord>)
    requires forall i :: 0 <= i < |data| ==> RecordErrors(data[i]) == []
    ensures CountStatus(ValidateRecords(data), Warning) == 0 <==> forall i :: 0 <= i < |data| ==> RecordWarnings(data[i]) == []
  {
    ValidatedStatuses(data);
  }

  /** `validateAll`: the validator run over every record, and the summary of its statuses. */
  function ValidateAll(data: seq<UdiRecord>): (result: (seq<UdiRecord>, ValidationSummary))
    ensures result.0 == ValidateRecords(data)
    ensures CountStatus(result.0, Pending) == 0
    ensures result.1.FoundInvalid? <==> exists i :: 0 <= i < |data| && RecordErrors(data[i]) != []
    ensures result.1.FoundInvalid? ==>
      result.1.invalidCount > 0 &&
      result.1.invalidCount + result.1.warningCount + result.1.validCount == |data|
    ensures result.1.FoundInvalid? ==>
      result.1 == FoundInvalid(CountStatus(result.0, Invalid), CountStatus(result.0, Warning), CountStatus(result.0, Valid))
    ensures result.1.ValidWithWarnings? ==>
      result.1.warningCount > 0 && (forall i :: 0 <= i < |data| ==> RecordErrors(data[i]) == [])
    ensures result.1.ValidWithWarnings? ==> result.1.warningCount == CountStatus(result.0, Warning)
    ensures result.1 == AllValid <==>
      forall i :: 0 <= i < |data| ==> RecordErrors(data[i]) == [] && RecordWarnings(data[i]) == []
  {
    var validated := ValidateRecords(data);
    var invalidCount := CountStatus(validated, Invalid);
    var warningCount := CountStatus(validated, Warning);
    var validCount := CountStatus(validated, Valid);
    ShownCountsBound(validated);
    NoInvalidAfterValidate(data);
    assert invalidCount == 0 ==> (warningCount == 0 <==> forall i :: 0 <= i < |data| ==> RecordWarnings(data[i]) == []) by {
      if invalidCount == 0 {
        NoWarningAfterValidate(data);
      }
    }
    var summary :=
      if invalidCount > 0 then FoundInvalid(invalidCount, warningCount, validCount)
      else if warningCount > 0 then ValidWithWarnings(warningCount)
      else AllValid;
    (validated, summary)
  }

  /** `lockAll`: every record locked, nothing else changed. */
  function LockAll(data: seq<UdiRecord>): (out: seq<UdiRecord>)
    ensures |out| == |data|
    ensures forall i :: 0 <= i < |data| ==> out[i].isLocked && out[i].(isLocked := data[i].isLocked) == data[i]
  {
    seq(|data|, i requires 0 <= i < |data| => data[i].(isLocked := true))
  }

  /** `unlockAll`: every record unlocked, nothing else changed. */
  function UnlockAll(data: seq<UdiRecord>): (out: seq<UdiRecord>)
    ensures |out| == |data|
    ensures forall i :: 0 <= i < |data| ==> !out[i].isLocked && out[i].(isLocked := data[i].isLocked) == data[i]
  {
    seq(|data|, i requires 0 <= i < |data| => data[i].(isLocked := false))
  }

  lemma LockAllIdempotent(data: seq<UdiRecord>)
    ensures LockAll(LockAll(data)) == LockAll(data)
    ensures LockAll(UnlockAll(data)) == LockAll(data)
  {
  }

  lemma UnlockAllIdempotent(data: seq<UdiRecord>)
    ensures UnlockAll(UnlockAll(data)) == UnlockAll(data)
    ensures UnlockAll(LockAll(data)) == UnlockAll(data)
  {
  }

  /** After lock-all a bulk edit changes nothing and counts no record as updated. */
  lemma LockAllBlocksBulkEdit(data: seq<UdiRecord>, field: Column, newValue: string)
    ensures BulkEditAsWritten(LockAll(data), field, newValue) == LockAll(data)
    ensures BulkEdit(LockAll(data), field, newValue) == LockAll(data)
    ensures UnlockedCount(LockAll(data)) == 0
  {
    KeepNone(LockAll(data), IsUnlocked);
  }

  /** After unlock-all a bulk edit reaches every record. */
  lemma UnlockAllOpensBulkEdit(data: seq<UdiRecord>)
    ensures UnlockedCount(UnlockAll(data)) == |data|
  {
    KeepAll(UnlockAll(data), IsUnlocked);
  }

  /** What the import button does. */
  datatype ImportResult = Rejected(invalidCount: nat) | Imported(recordCount: nat)

  /** `handleImport`: refused while any record is invalid, reporting how many are. */
  function HandleImport(data: seq<UdiRecord>): (result: ImportResult)
    ensures result.Rejected? <==> exists i :: 0 <= i < |data| && data[i].status == Invalid
    ensures result.Rejected? ==> result.invalidCount == CountStatus(data, Invalid) && result.invalidCount > 0
    ensures result.Imported? ==> result.recordCount == |data|
  {
    var invalidCount := CountStatus(data, Invalid);
    if invalidCount > 0 then Rejected(invalidCount) else Imported(|data|)
  }

  /** After validate-all, import is refused exactly when some record fails a check. */
  lemma ImportAfterValidate(data: seq<UdiRecord>)
    ensures HandleImport(ValidateRecords(data)).Rejected? <==>
      exists i :: 0 <= i < |data| && RecordErrors(data[i]) != []
  {
    var validated := ValidateRecords(data);
    assert forall i :: 0 <= i < |data| ==>
      (validated[i].status == Invalid <==> RecordErrors(data[i]) != []);
  }

  /** Locking does not change what import decides. */
  lemma ImportIgnoresLocks(data: seq<UdiRecord>)
    ensures HandleImport(LockAll(data)).Rejected? == HandleImport(data).Rejected?
    ensures HandleImport(UnlockAll(data)).Rejected? == HandleImport(data).Rejected?
  {
    var locked, unlocked := LockAll(data), UnlockAll(data);
    assert forall i :: 0 <= i < |data| ==> locked[i].status == data[i].status == unlocked[i].status;
  }
}
