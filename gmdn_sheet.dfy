/** The GMDN sheet: nomenclature sub-records kept per device, with add,
    edit, save, delete and cancel. New record ids arrive as parameters. */
module GmdnSheet {
  import opened JsStrings
  import opened Seqs
  import opened UdiTypes

  /** A JavaScript `string | null` used in a truth test: set and non-empty. */
  predicate IsSet(o: Option<string>)
  {
    o.Some? && o.value != ""
  }

  /** `filteredGMDNRecords`: the sub-records of the selected device, in order; none when no device is selected. */
  function DeviceRecords(records: seq<GmdnRecord>, selectedDevice: Option<string>): (out: seq<GmdnRecord>)
    ensures forall x :: x in out <==> x in records && selectedDevice == Some(x.deviceIdentifier)
    ensures IsSubsequence(out, records)
    ensures selectedDevice.None? ==> out == []
    ensures forall x :: multiset(out)[x] == if selectedDevice == Some(x.deviceIdentifier) then multiset(records)[x] else 0
  {
    var p := (g: GmdnRecord) => selectedDevice == Some(g.deviceIdentifier);
    KeepIsSubsequence(records, p);
    KeepMultiset(records, p);
    assert selectedDevice.None? ==> Keep(records, p) == [] by {
      if selectedDevice.None? {
        KeepNone(records, p);
      }
    }
    Keep(records, p)
  }

  /** The blank sub-record `handleAddGMDN` creates for a device. */
  function NewGmdnRecord(id: string, device: string): (g: GmdnRecord)
    ensures g.id == id && g.deviceIdentifier == device
    ensures g.gmdnCode == "" && g.gmdnTerm == "" && g.status == Pending && !g.isLocked
  {
    GmdnRecord(id, device, "", "", Pending, false)
  }

  /** `handleSaveGMDN`'s map: each sub-record with id `id` takes the code and
      term and becomes valid; every other one is kept. */
  function SaveRows(records: seq<GmdnRecord>, id: string, code: string, term: string): (out: seq<GmdnRecord>)
    ensures |out| == |records|
    ensures forall i :: 0 <= i < |records| && records[i].id != id ==> out[i] == records[i]
    ensures forall i :: 0 <= i < |records| && records[i].id == id ==>
      out[i].gmdnCode == code && out[i].gmdnTerm == term && out[i].status == Valid &&
      out[i].id == id && out[i].deviceIdentifier == records[i].deviceIdentifier &&
      out[i].isLocked == records[i].isLocked
  {
    seq(|records|, i requires 0 <= i < |records| =>
      if records[i].id == id then records[i].(gmdnCode := code, gmdnTerm := term, status := Valid)
      else records[i])
  }

  /** `handleDeleteGMDN`'s filter: exactly the sub-records with id `id` go, the others keep their order. */
  function DeleteRows(records: seq<GmdnRecord>, id: string): (out: seq<GmdnRecord>)
    ensures forall x :: x in out <==> x in records && x.id != id
    ensures IsSubsequence(out, records)
    ensures forall x :: multiset(out)[x] == if x.id != id then multiset(records)[x] else 0
  {
    KeepIsSubsequence(records, (g: GmdnRecord) => g.id != id);
    KeepMultiset(records, (g: GmdnRecord) => g.id != id);
    Keep(records, (g: GmdnRecord) => g.id != id)
  }

  /** An added record shows last in its device's view. */
  lemma AddedShowsLast(records: seq<GmdnRecord>, id: string, device: string)
    ensures DeviceRecords(records + [NewGmdnRecord(id, device)], Some(device)) ==
      DeviceRecords(records, Some(device)) + [NewGmdnRecord(id, device)]
  {
    var p := (g: GmdnRecord) => Some(device) == Some(g.deviceIdentifier);
    KeepAppend(records, [NewGmdnRecord(id, device)], p);
  }

  /** Deleting a freshly added record under an id no other record has restores the list. */
  lemma DeleteUndoesAdd(records: seq<GmdnRecord>, id: string, device: string)
    requires forall i :: 0 <= i < |records| ==> records[i].id != id
    ensures DeleteRows(records + [NewGmdnRecord(id, device)], id) == records
  {
    var p := (g: GmdnRecord) => g.id != id;
    KeepAppend(records, [NewGmdnRecord(id, device)], p);
    KeepAll(records, p);
    assert Keep([NewGmdnRecord(id, device)], p) == [];
  }

  /** Saving touches no sub-record of another id, so the views of the other devices stay the same when ids are not shared. */
  lemma SaveKeepsOtherDevices(records: seq<GmdnRecord>, id: string, code: string, term: string, other: string)
    requires forall i :: 0 <= i < |records| && records[i].id == id ==> records[i].deviceIdentifier != other
    ensures DeviceRecords(SaveRows(records, id, code, term), Some(other)) == DeviceRecords(records, Some(other))
  {
    var out := SaveRows(records, id, code, term);
    var p := (g: GmdnRecord) => Some(other) == Some(g.deviceIdentifier);
    KeepPointwise(records, out, p);
  }

  /** The state of the GMDN sheet. */
  class GmdnSheetState {
    var gmdnRecords: seq<GmdnRecord>
    var selectedDevice: Option<string>
    var editingRecord: Option<string>
    var editCode: string
    var editTerm: string

    constructor ()
      ensures gmdnRecords == [] && selectedDevice == None && editingRecord == None
      ensures editCode == "" && editTerm == ""
    {
      gmdnRecords := [];
      selectedDevice := None;
      editingRecord := None;
      editCode := "";
      editTerm := "";
    }

    function FilteredGmdnRecords(): (out: seq<GmdnRecord>)
      reads this
      ensures forall x :: x in out <==> x in gmdnRecords && selectedDevice == Some(x.deviceIdentifier)
      ensures out == DeviceRecords(gmdnRecords, selectedDevice)
    {
      DeviceRecords(gmdnRecords, selectedDevice)
    }

    method SetSelectedDevice(device: Option<string>)
      modifies this`selectedDevice
      ensures selectedDevice == device
    {
      selectedDevice := device;
    }

    method SetEditCode(code: string)
      modifies this`editCode
      ensures editCode == code
    {
      editCode := code;
    }

    method SetEditTerm(term: string)
      modifies this`editTerm
      ensures editTerm == term
    {
      editTerm := term;
    }

    /** `handleAddGMDN`: without a selected device nothing happens; otherwise
        a blank pending sub-record for the device is appended, the cursor
        moves to it and the edit fields are cleared. */
    method AddGmdn(newId: string)
      modifies this`gmdnRecords, this`editingRecord, this`editCode, this`editTerm
      ensures !IsSet(old(selectedDevice)) ==>
        gmdnRecords == old(gmdnRecords) && editingRecord == old(editingRecord) &&
        editCode == old(editCode) && editTerm == old(editTerm)
      ensures IsSet(old(selectedDevice)) ==>
        gmdnRecords == old(gmdnRecords) + [NewGmdnRecord(newId, selectedDevice.value)] &&
        editingRecord == Some(newId) && editCode == "" && editTerm == ""
    {
      if !IsSet(selectedDevice) {
        return;
      }
      gmdnRecords := gmdnRecords + [NewGmdnRecord(newId, selectedDevice.value)];
      editingRecord := Some(newId);
      editCode := "";
      editTerm := "";
    }

    /** `handleSaveGMDN`: without a cursor nothing happens; otherwise the
        sub-records under the cursor take the edit fields and become valid,
        and the cursor is cleared. */
    method SaveGmdn()
      modifies this`gmdnRecords, this`editingRecord
      ensures !IsSet(old(editingRecord)) ==>
        gmdnRecords == old(gmdnRecords) && editingRecord == old(editingRecord)
      ensures IsSet(old(editingRecord)) ==>
        gmdnRecords == SaveRows(old(gmdnRecords), old(editingRecord).value, editCode, editTerm) &&
        editingRecord == None
    {
      if !IsSet(editingRecord) {
        return;
      }
      gmdnRecords := SaveRows(gmdnRecords, editingRecord.value, editCode, editTerm);
      editingRecord := None;
    }

    /** `handleEditGMDN`: the cursor and the edit fields are seeded from the sub-record. */
    method EditGmdn(record: GmdnRecord)
      modifies this`editingRecord, this`editCode, this`editTerm
      ensures editingRecord == Some(record.id) && editCode == record.gmdnCode && editTerm == record.gmdnTerm
    {
      editingRecord := Some(record.id);
      editCode := record.gmdnCode;
      editTerm := record.gmdnTerm;
    }

    /** `handleDeleteGMDN`. */
    method DeleteGmdn(recordId: string)
      modifies this`gmdnRecords
      ensures gmdnRecords == DeleteRows(old(gmdnRecords), recordId)
    {
      gmdnRecords := DeleteRows(gmdnRecords, recordId);
    }

    /** `cancelEditing`: only the cursor is cleared; the edit fields keep their text. */
    method CancelEditing()
      modifies this`editingRecord
      ensures editingRecord == None
    {
      editingRecord := None;
    }
  }
}
