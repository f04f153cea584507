/** The upload controller: which files are accepted, the history entry an
    ingest produces, and the capped most-recent-first history log. The record
    batch, the entry id and the clock reading arrive as parameters. */
module FileUpload {
  import opened JsStrings
  import opened UdiTypes
  import opened Validators
  import opened TableControls

  /** The history keeps this many entries at most. */
  const HistoryCap: nat := 10

  /** The name the demo loader records in the history. */
  const DemoFileName: string := "Demo Data.csv"

  /** A chosen file; only its name matters here. */
  datatype FileRef = FileRef(name: string)

  /** One ingest in the upload history. `timestamp` is the clock reading taken at ingest. */
  datatype UploadHistory = UploadHistory(
    id: string,
    fileName: string,
    timestamp: int,
    recordCount: nat,
    data: seq<UdiRecord>,
    isValid: bool,
    invalidCount: nat,
    warningCount: nat)

  /** `name.split('.').pop()`: the text after the last dot, or the whole name when it has none. */
  function Extension(name: string): (ext: string)
    ensures EndsWith(name, ext)
    ensures '.' !in ext
    ensures |ext| < |name| ==> name[|name| - |ext| - 1] == '.'
  {
    if name == [] then []
    else if name[|name| - 1] == '.' then []
    else
      var prefix := name[..|name| - 1];
      var ext := Extension(prefix) + [name[|name| - 1]];
      assert name == prefix + [name[|name| - 1]];
      ext
  }

  /** `handleFile`'s format check: the extension, lower-cased, is `csv`, `xlsx` or `xls`. */
  predicate AcceptsFile(name: string)
    ensures AcceptsFile(name) ==> 3 <= |Extension(name)| <= 4 && EndsWith(name, Extension(name))
    ensures AcceptsFile(name) && |Extension(name)| < |name| ==> name[|name| - |Extension(name)| - 1] == '.'
  {
    var ext := Lower(Extension(name));
    ext == "csv" || ext == "xlsx" || ext == "xls"
  }

  /** The extension of `base.ext`, for an `ext` without a dot, is `ext`, whatever `base` holds. */
  lemma {:induction false} ExtensionAfterLastDot(base: string, ext: string)
    requires '.' !in ext
    ensures Extension(base + "." + ext) == ext
  {
    var name := base + "." + ext;
    if ext != [] {
      var init := ext[..|ext| - 1];
      ExtensionAfterLastDot(base, init);
      assert name[..|name| - 1] == base + "." + init;
      assert init + [ext[|ext| - 1]] == ext;
    }
  }

  /** A name without a dot is its own extension. */
  lemma {:induction false} ExtensionWithoutDot(name: string)
    requires '.' !in name
    ensures Extension(name) == name
  {
    if name != [] {
      ExtensionWithoutDot(name[..|name| - 1]);
      assert name[..|name| - 1] + [name[|name| - 1]] == name;
    }
  }

  /** Only the part after the last dot decides, in any letter case; a name without a dot is read whole. */
  lemma AcceptsByLastSegment(base: string, ext: string)
    requires '.' !in ext
    ensures AcceptsFile(base + "." + ext) <==> Lower(ext) in ["csv", "xlsx", "xls"]
    ensures AcceptsFile(ext) <==> Lower(ext) in ["csv", "xlsx", "xls"]
  {
    ExtensionAfterLastDot(base, ext);
    ExtensionWithoutDot(ext);
    AcceptsByExtension(base + "." + ext);
    AcceptsByExtension(ext);
  }

  /** Acceptance reads only the lower-cased extension. */
  lemma AcceptsByExtension(name: string)
    ensures AcceptsFile(name) <==> Lower(Extension(name)) in ["csv", "xlsx", "xls"]
  {
  }

  /** The entry for an ingest of the validated batch `validated`. */
  function HistoryEntry(id: string, fileName: string, timestamp: int, validated: seq<UdiRecord>): (e: UploadHistory)
    ensures e.id == id && e.fileName == fileName && e.timestamp == timestamp && e.data == validated
    ensures e.recordCount == |validated|
    ensures e.invalidCount == CountStatus(validated, Invalid)
    ensures e.warningCount == CountStatus(validated, Warning)
    ensures e.isValid <==> forall i :: 0 <= i < |validated| ==> validated[i].status != Invalid
    ensures e.invalidCount + e.warningCount <= e.recordCount
  {
    ShownCountsBound(validated);
    var invalidCount := CountStatus(validated, Invalid);
    UploadHistory(id, fileName, timestamp, |validated|, validated, invalidCount == 0,
      invalidCount, CountStatus(validated, Warning))
  }

  /** `[entry, ...history].slice(0, 10)`. */
  function PushHistory(entry: UploadHistory, history: seq<UploadHistory>): (out: seq<UploadHistory>)
    ensures |out| == if |history| < HistoryCap then |history| + 1 else HistoryCap
    ensures out[0] == entry
    ensures out[1..] == history[..|out| - 1]
  {
    var all := [entry] + history;
    var n := if |all| < HistoryCap then |all| else HistoryCap;
    assert all[..n][1..] == history[..n - 1];
    all[..n]
  }

  /** A log that is full stays full: the oldest entry goes and the rest move down one place. */
  lemma PushFullHistory(entry: UploadHistory, history: seq<UploadHistory>)
    requires |history| == HistoryCap
    ensures PushHistory(entry, history) == [entry] + history[..HistoryCap - 1]
  {
    var out := PushHistory(entry, history);
    assert out == [out[0]] + out[1..];
  }

  /** An entry is still in the log after fewer than ten later ingests, one place further down per ingest. */
  lemma PushKeepsRecent(entry: UploadHistory, history: seq<UploadHistory>, k: nat)
    requires k < |history| && k + 1 < HistoryCap
    ensures PushHistory(entry, history)[k + 1] == history[k]
  {
    var out := PushHistory(entry, history);
    assert out[1..][k] == history[k];
  }

  /** The upload controller's state. */
  class FileUploader {
    var file: Option<FileRef>
    var isLoading: bool
    var uploadedRecords: seq<UdiRecord>
    var uploadHistory: seq<UploadHistory>

    /** The history never exceeds its cap. */
    ghost predicate Inv()
      reads this
    {
      |uploadHistory| <= HistoryCap
    }

    constructor ()
      ensures Inv()
      ensures file == None && !isLoading && uploadedRecords == [] && uploadHistory == []
    {
      file := None;
      isLoading := false;
      uploadedRecords := [];
      uploadHistory := [];
    }

    /** One completed ingest of `batch` under `fileName`: the validated batch
        becomes the uploaded records and heads the history. */
    method Ingest(fileName: string, batch: seq<UdiRecord>, id: string, timestamp: int)
      returns (loaded: seq<UdiRecord>)
      requires Inv()
      modifies this`isLoading, this`uploadedRecords, this`uploadHistory
      ensures Inv()
      ensures loaded == ValidateRecords(batch) && uploadedRecords == loaded && !isLoading
      ensures uploadHistory == PushHistory(HistoryEntry(id, fileName, timestamp, loaded), old(uploadHistory))
    {
      isLoading := true;
      var validated := ValidateRecords(batch);
      uploadHistory := PushHistory(HistoryEntry(id, fileName, timestamp, validated), uploadHistory);
      uploadedRecords := validated;
      isLoading := false;
      loaded := validated;
    }

    /** `processFile(fileToProcess = file)`: `None` stands for a call without
        an argument, which falls back to the current file; with no file at
        all nothing happens. */
    method ProcessFile(fileToProcess: Option<FileRef>, batch: seq<UdiRecord>, id: string, timestamp: int)
      returns (loaded: Option<seq<UdiRecord>>)
      requires Inv()
      modifies this`isLoading, this`uploadedRecords, this`uploadHistory
      ensures Inv()
      ensures fileToProcess.None? && old(file).None? ==>
        loaded == None && isLoading == old(isLoading) &&
        uploadedRecords == old(uploadedRecords) && uploadHistory == old(uploadHistory)
      ensures fileToProcess.Some? || old(file).Some? ==>
        var target := if fileToProcess.Some? then fileToProcess.value else old(file).value;
        loaded == Some(ValidateRecords(batch)) && uploadedRecords == loaded.value && !isLoading &&
        uploadHistory == PushHistory(HistoryEntry(id, target.name, timestamp, loaded.value), old(uploadHistory))
    {
      var target := if fileToProcess.Some? then fileToProcess else file;
      if target.None? {
        return None;
      }
      var records := Ingest(target.value.name, batch, id, timestamp);
      loaded := Some(records);
    }

    /** `handleFile`: a file of another format is refused and nothing
        changes; an accepted file becomes the current file and is ingested. */
    method HandleFile(f: FileRef, batch: seq<UdiRecord>, id: string, timestamp: int)
      returns (loaded: Option<seq<UdiRecord>>)
      requires Inv()
      modifies this`file, this`isLoading, this`uploadedRecords, this`uploadHistory
      ensures Inv()
      ensures !AcceptsFile(f.name) ==>
        loaded == None && file == old(file) && isLoading == old(isLoading) &&
        uploadedRecords == old(uploadedRecords) && uploadHistory == old(uploadHistory)
      ensures AcceptsFile(f.name) ==>
        file == Some(f) && loaded == Some(ValidateRecords(batch)) && uploadedRecords == loaded.value && !isLoading &&
        uploadHistory == PushHistory(HistoryEntry(id, f.name, timestamp, loaded.value), old(uploadHistory))
    {
      if !AcceptsFile(f.name) {
        return None;
      }
      file := Some(f);
      loaded := ProcessFile(Some(f), batch, id, timestamp);
    }

    /** `loadDemoData`: an ingest under the demo file name, whatever file is current. */
    method LoadDemoData(batch: seq<UdiRecord>, id: string, timestamp: int) returns (loaded: seq<UdiRecord>)
      requires Inv()
      modifies this`isLoading, this`uploadedRecords, this`uploadHistory
      ensures Inv()
      ensures loaded == ValidateRecords(batch) && uploadedRecords == loaded && !isLoading
      ensures uploadHistory == PushHistory(HistoryEntry(id, DemoFileName, timestamp, loaded), old(uploadHistory))
    {
      loaded := Ingest(DemoFileName, batch, id, timestamp);
    }
  }
}
