/** The filter engine: keep, in order, the records that match every active
    column filter, comparing lower-cased text. */
module FilterUtils {
  import opened JsStrings
  import opened Seqs
  import opened UdiTypes

  /** The comparison a filter applies. `OtherOp` stands for any operation
      name outside the four known ones. */
  datatype Operation = ContainsOp | EqualsOp | StartsWithOp | EndsWithOp | OtherOp

  datatype FilterOption = FilterOption(column: Column, value: string, operation: Operation)

  /** `String(record[column] || '')`: falsy values (the empty string, `false`) read as "". */
  function FieldText(r: UdiRecord, c: Column): (t: string)
    ensures Get(r, c).Text? ==> t == Get(r, c).s
    ensures Get(r, c) == FlagValue(Bool(false)) ==> t == ""
    ensures Get(r, c) == FlagValue(Bool(true)) ==> t == "true"
  {
    match Get(r, c)
    case Text(s) => s
    case FlagValue(f) => (match f case Bool(b) => if b then "true" else "" case Str(s) => s)
    case StatusValue(st) => StatusName(st)
  }

  /** One filter holds of a record; both sides are lower-cased first. */
  predicate Matches(r: UdiRecord, f: FilterOption)
  {
    var fieldValue := Lower(FieldText(r, f.column));
    var filterValue := Lower(f.value);
    match f.operation
    case ContainsOp => Includes(fieldValue, filterValue)
    case EqualsOp => fieldValue == filterValue
    case StartsWithOp => StartsWith(fieldValue, filterValue)
    case EndsWithOp => EndsWith(fieldValue, filterValue)
    case OtherOp => true
  }

  /** `filters.every(...)`. */
  predicate MatchesAll(r: UdiRecord, filters: seq<FilterOption>)
  {
    forall f :: f in filters ==> Matches(r, f)
  }

  /** An empty filter list returns the input; otherwise a record is kept
      exactly when it matches every filter, and nothing is added. */
  function FilterRecords(records: seq<UdiRecord>, filters: seq<FilterOption>): (out: seq<UdiRecord>)
    ensures filters == [] ==> out == records
    ensures forall x :: x in out <==> x in records && MatchesAll(x, filters)
    ensures |out| <= |records|
    ensures forall x :: multiset(out)[x] == if MatchesAll(x, filters) then multiset(records)[x] else 0
  {
    if |filters| == 0 then records
    else
      KeepMultiset(records, x => MatchesAll(x, filters));
      Keep(records, x => MatchesAll(x, filters))
  }

  /** The result is a subsequence of the input: order kept, nothing added. */
  lemma FilterIsSubsequence(records: seq<UdiRecord>, filters: seq<FilterOption>)
    ensures IsSubsequence(FilterRecords(records, filters), records)
  {
    if filters == [] {
      SubsequenceReflexive(records);
    } else {
      KeepIsSubsequence(records, x => MatchesAll(x, filters));
    }
  }

  /** Filtering by `fs + gs` is filtering by `fs` and then by `gs`. */
  lemma FilterCompose(records: seq<UdiRecord>, fs: seq<FilterOption>, gs: seq<FilterOption>)
    ensures FilterRecords(records, fs + gs) == FilterRecords(FilterRecords(records, fs), gs)
  {
    if fs == [] {
      assert fs + gs == gs;
    } else if gs == [] {
      assert fs + gs == fs;
    } else {
      forall x ensures MatchesAll(x, fs + gs) == (MatchesAll(x, fs) && MatchesAll(x, gs)) {
        assert forall f :: f in fs + gs <==> f in fs || f in gs;
      }
      KeepKeep(records, x => MatchesAll(x, fs), x => MatchesAll(x, gs), x => MatchesAll(x, fs + gs));
    }
  }

  /** Adding filters never enlarges the result: the narrower result is a
      subsequence of the wider one. */
  lemma FilterMonotone(records: seq<UdiRecord>, fs: seq<FilterOption>, gs: seq<FilterOption>)
    ensures IsSubsequence(FilterRecords(records, fs + gs), FilterRecords(records, fs))
    ensures |FilterRecords(records, fs + gs)| <= |FilterRecords(records, fs)|
  {
    FilterCompose(records, fs, gs);
    FilterIsSubsequence(FilterRecords(records, fs), gs);
  }

  /** Filtering twice with the same filters is filtering once. */
  lemma FilterIdempotent(records: seq<UdiRecord>, filters: seq<FilterOption>)
    ensures FilterRecords(FilterRecords(records, filters), filters) == FilterRecords(records, filters)
  {
    if filters != [] {
      KeepIdempotent(records, x => MatchesAll(x, filters));
    }
  }

  /** The case of the filter value and of the field text does not matter. */
  lemma MatchIgnoresCase(r: UdiRecord, r': UdiRecord, f: FilterOption, value': string)
    requires Lower(FieldText(r, f.column)) == Lower(FieldText(r', f.column))
    requires Lower(value') == Lower(f.value)
    ensures Matches(r, f) == Matches(r', f.(value := value'))
  {
  }

  /** `contains ""` keeps every record, falsy fields included. */
  lemma ContainsEmptyKeepsAll(records: seq<UdiRecord>, c: Column)
    ensures FilterRecords(records, [FilterOption(c, "", ContainsOp)]) == records
  {
    var f := FilterOption(c, "", ContainsOp);
    forall x | x in records ensures MatchesAll(x, [f]) {
      IncludesFacts(Lower(FieldText(x, c)), "");
    }
    KeepAll(records, x => MatchesAll(x, [f]));
  }

  /** An operation outside the four known ones keeps every record. */
  lemma OtherOperationKeepsAll(records: seq<UdiRecord>, c: Column, value: string)
    ensures FilterRecords(records, [FilterOption(c, value, OtherOp)]) == records
  {
    KeepAll(records, x => MatchesAll(x, [FilterOption(c, value, OtherOp)]));
  }

  /** An `equals` filter on the manufacturer keeps exactly the records whose
      manufacturer equals the value up to case. */
  lemma EqualsManufacturer(records: seq<UdiRecord>, value: string, x: UdiRecord)
    ensures x in FilterRecords(records, [FilterOption(ManufacturerName, value, EqualsOp)]) <==>
      x in records && Lower(x.manufacturerName) == Lower(value)
  {
    var f := FilterOption(ManufacturerName, value, EqualsOp);
    assert MatchesAll(x, [f]) <==> Matches(x, f);
  }

  /** A cleared boolean reads as "" (it is falsy), so it matches `equals ""`
      and does not contain "false". */
  lemma FalseFlagReadsEmpty(r: UdiRecord, c: Column)
    requires IsBooleanKey(c) && Get(r, c) == FlagValue(Bool(false))
    ensures Matches(r, FilterOption(c, "", EqualsOp))
    ensures !Matches(r, FilterOption(c, "false", ContainsOp))
  {
    assert |Lower("false")| == 5;
  }
}
