/** Cell highlighting: whether a cell of the grid is drawn as an error, a
    warning or plainly, decided by searching the record's messages for the
    column's name. */
module TableContent {
  import opened JsStrings
  import opened UdiTypes
  import opened Validators
  import opened TableState

  datatype CellHighlight = ErrorCell | WarningCell | NoHighlight

  /** Some message contains `needle`, ignoring letter case. */
  predicate Mentions(messages: seq<string>, needle: string)
  {
    exists i | 0 <= i < |messages| :: Includes(Lower(messages[i]), Lower(needle))
  }

  /** `getCellErrorStatus(record, column)` as the code writes it; the table passes the column key. */
  function CellErrorStatus(r: UdiRecord, column: string): (h: CellHighlight)
    ensures h == ErrorCell <==> r.status == Invalid && r.errors.Some? && Mentions(r.errors.value, column)
    ensures h == WarningCell <==> r.status == Warning && r.warnings.Some? && Mentions(r.warnings.value, column)
    ensures r.status == Valid || r.status == Pending ==> h == NoHighlight
    ensures r.status == Invalid && r.errors.None? ==> h == NoHighlight
  {
    if r.status == Invalid && r.errors.Some? then
      (if Mentions(r.errors.value, column) then ErrorCell else NoHighlight)
    else if r.status == Warning && r.warnings.Some? then
      (if Mentions(r.warnings.value, column) then WarningCell else NoHighlight)
    else NoHighlight
  }

  /** The highlight with the column's label searched for as well as its key. */
  function CellHighlightFor(r: UdiRecord, c: Column): (h: CellHighlight)
    ensures h == ErrorCell <==>
      r.status == Invalid && r.errors.Some? && (Mentions(r.errors.value, Key(c)) || Mentions(r.errors.value, Label(c)))
    ensures h == WarningCell <==>
      r.status == Warning && r.warnings.Some? && (Mentions(r.warnings.value, Key(c)) || Mentions(r.warnings.value, Label(c)))
    ensures r.status == Valid || r.status == Pending ==> h == NoHighlight
  {
    if r.status == Invalid && r.errors.Some? then
      (if Mentions(r.errors.value, Key(c)) || Mentions(r.errors.value, Label(c)) then ErrorCell else NoHighlight)
    else if r.status == Warning && r.warnings.Some? then
      (if Mentions(r.warnings.value, Key(c)) || Mentions(r.warnings.value, Label(c)) then WarningCell else NoHighlight)
    else NoHighlight
  }

  /** Every cell the code as written highlights is highlighted the same way by the corrected rule. */
  lemma CorrectedExtendsAsWritten(r: UdiRecord, c: Column)
    ensures CellErrorStatus(r, Key(c)) != NoHighlight ==> CellHighlightFor(r, c) == CellErrorStatus(r, Key(c))
  {
  }

  /** `msg` starts with `prefix`, so it mentions it. */
  lemma MentionsPrefix(msg: string, prefix: string)
    requires StartsWith(msg, prefix)
    ensures Includes(Lower(msg), Lower(prefix))
  {
    assert Lower(msg)[..|prefix|] == Lower(prefix);
    assert OccursAt(Lower(msg), Lower(prefix), 0);
  }

  /** A message listed among the errors of an invalid record highlights every column it mentions. */
  lemma ErrorMessageHighlights(r: UdiRecord, c: Column, msg: string)
    requires r.status == Invalid && r.errors.Some? && msg in r.errors.value
    requires Includes(Lower(msg), Lower(Label(c)))
    ensures CellHighlightFor(r, c) == ErrorCell
  {
    var k :| 0 <= k < |r.errors.value| && r.errors.value[k] == msg;
    assert Mentions(r.errors.value, Label(c));
  }

  /** The message for a missing identifier mentions the identifier's label. */
  lemma DeviceRequiredMentionsLabel()
    ensures Includes(Lower(DeviceRequired), Lower(Label(DeviceIdentifier)))
  {
    assert DeviceRequired[..17] == Label(DeviceIdentifier);
    MentionsPrefix(DeviceRequired, Label(DeviceIdentifier));
  }

  /** The message for a missing manufacturer mentions the manufacturer's label. */
  lemma ManufacturerRequiredMentionsLabel()
    ensures Includes(Lower(ManufacturerRequired), Lower(Label(ManufacturerName)))
  {
    assert ManufacturerRequired[..12] == Label(ManufacturerName);
    MentionsPrefix(ManufacturerRequired, Label(ManufacturerName));
  }

  /** The message for a missing product name mentions the product's label. */
  lemma ProductRequiredMentionsLabel()
    ensures Includes(Lower(ProductRequired), Lower(Label(ProductName)))
  {
    assert ProductRequired[..7] == Label(ProductName);
    MentionsPrefix(ProductRequired, Label(ProductName));
  }

  /** With the label searched for, each missing required field highlights its own cell. */
  lemma RequiredFieldsHighlight(r: UdiRecord)
    ensures r.deviceIdentifier == "" ==> CellHighlightFor(ValidateRecord(r), DeviceIdentifier) == ErrorCell
    ensures r.manufacturerName == "" ==> CellHighlightFor(ValidateRecord(r), ManufacturerName) == ErrorCell
    ensures r.productName == "" ==> CellHighlightFor(ValidateRecord(r), ProductName) == ErrorCell
  {
    RequiredErrorsIff(r);
    if r.deviceIdentifier == "" {
      DeviceRequiredMentionsLabel();
      ErrorMessageHighlights(ValidateRecord(r), DeviceIdentifier, DeviceRequired);
    }
    if r.manufacturerName == "" {
      ManufacturerRequiredMentionsLabel();
      ErrorMessageHighlights(ValidateRecord(r), ManufacturerName, ManufacturerRequired);
    }
    if r.productName == "" {
      ProductRequiredMentionsLabel();
      ErrorMessageHighlights(ValidateRecord(r), ProductName, ProductRequired);
    }
  }

  /** The too-short message mentions the identifier's label, in another letter case. */
  lemma IdentifierLengthMentionsLabel()
    ensures Includes(Lower(IdentifierLength), Lower(Label(DeviceIdentifier)))
  {
    assert Lower(IdentifierLength)[..17] == Lower(Label(DeviceIdentifier)) by {
      assert forall k :: 0 <= k < 17 ==> LowerChar(IdentifierLength[k]) == LowerChar(Label(DeviceIdentifier)[k]);
    }
    assert OccursAt(Lower(IdentifierLength), Lower(Label(DeviceIdentifier)), 0);
  }

  /** With the label searched for, a too-short identifier highlights the identifier cell. */
  lemma ShortIdentifierHighlights(r: UdiRecord)
    requires 0 < |r.deviceIdentifier| < 5
    ensures CellHighlightFor(ValidateRecord(r), DeviceIdentifier) == ErrorCell
  {
    IdentifierErrors(r);
    IdentifierLengthMentionsLabel();
    ErrorMessageHighlights(ValidateRecord(r), DeviceIdentifier, IdentifierLength);
  }

  /** The identifier key, lower-cased, has no space. */
  lemma KeyHasNoSpace()
    ensures forall k :: 0 <= k < |Lower(Key(DeviceIdentifier))| ==> Lower(Key(DeviceIdentifier))[k] != ' '
  {
    forall k | 0 <= k < |Lower(Key(DeviceIdentifier))|
      ensures Lower(Key(DeviceIdentifier))[k] != ' '
    {
      assert "deviceIdentifier"[k] != ' ';
    }
  }

  /** The missing-identifier message does not contain the identifier's key:
      every stretch of it as long as the key holds a space, and the key has none. */
  lemma RequiredMessageOmitsKey()
    ensures !Includes(Lower(DeviceRequired), Lower(Key(DeviceIdentifier)))
  {
    var s := Lower(DeviceRequired);
    var t := Lower(Key(DeviceIdentifier));
    KeyHasNoSpace();
    assert s[6] == ' ' && s[17] == ' ';
    forall i | 0 <= i <= |s| - |t|
      ensures !OccursAt(s, t, i)
    {
      if i <= 6 {
        assert s[i..i + |t|][6 - i] == ' ';
      } else {
        assert s[i..i + |t|][17 - i] == ' ';
      }
    }
  }

  /** A record whose only fault is a missing identifier: the code as written
      marks it invalid yet does not highlight the identifier cell, while the
      corrected rule does. */
  lemma AsWrittenMissesIdentifierCell(r: UdiRecord)
    requires r.deviceIdentifier == "" && r.manufacturerName != "" && r.productName != ""
    requires r.productionDate == "" && r.expirationDate == ""
    ensures ValidateRecord(r).status == Invalid
    ensures CellErrorStatus(ValidateRecord(r), Key(DeviceIdentifier)) == NoHighlight
    ensures CellHighlightFor(ValidateRecord(r), DeviceIdentifier) == ErrorCell
  {
    var v := ValidateRecord(r);
    assert RecordErrors(r) == [DeviceRequired];
    assert v.errors.value == [DeviceRequired];
    RequiredMessageOmitsKey();
    assert !Mentions(v.errors.value, Key(DeviceIdentifier));
    RequiredFieldsHighlight(r);
  }
}
