/**
 * Reading the spreadsheet's tables (DataAccess.js): sheet-name validation,
 * cell sanitising, turning a header row plus data rows into records, indexing
 * records by a key column, and the read-through cache of those indexes.
 *
 * The spreadsheet itself is not modelled: a sheet is handed in as the 2-D
 * array of values its data range holds (or as the outcome of a failed open).
 */
module DataAccess {
  import opened Wrappers
  import opened Text
  import opened Records
  import opened Seqs

  /** The only tables the application may open. */
  const AllowedSheets: seq<string> :=
    ["Task", "Project", "Employee", "TaskStatus", "TaskType", "Location", "ProjectStatus"]

  const MaxSheetNameLength := 100

  /** Longest cell value kept; longer values are cut to this many characters. */
  const MaxValueLength := 10000

  /** The one message every failure to read a table is reported with. */
  const AccessErrorMessage := "Unable to access data. Please check configuration and try again."

  /** Why validateSheetName throws, in the order it checks. */
  datatype NameError =
    | EmptyName                  // 'must be a non-empty string'
    | BadLength                  // trimmed length outside 1..100
    | IllegalCharacters          // a character outside [a-zA-Z0-9\s_-]
    | NotAllowed(name: string)   // the trimmed name is not in the allowed list

  /** The character class [a-zA-Z0-9\s_-]. */
  predicate IsSheetNameChar(c: char) {
    ('a' <= c <= 'z') || ('A' <= c <= 'Z') || ('0' <= c <= '9') || IsWhitespace(c) || c == '_' || c == '-'
  }

  /**
   * validateSheetName: succeeds (with true) exactly for the allowed names,
   * give or take surrounding whitespace; otherwise says which check failed.
   */
  function ValidateSheetName(sheetName: string): (r: Result<bool, NameError>)
    ensures r.Ok? ==> r.value
    ensures r.Ok? <==> Trim(sheetName) in AllowedSheets
    ensures r == Err(EmptyName) <==> sheetName == ""
    ensures r == Err(BadLength) <==> sheetName != "" && (Trim(sheetName) == "" || |Trim(sheetName)| > MaxSheetNameLength)
    ensures r == Err(IllegalCharacters) <==>
      (sheetName != "" && 0 < |Trim(sheetName)| <= MaxSheetNameLength
       && exists i :: 0 <= i < |Trim(sheetName)| && !IsSheetNameChar(Trim(sheetName)[i]))
    ensures r.Err? && r.error.NotAllowed? ==> r.error.name == Trim(sheetName) && Trim(sheetName) !in AllowedSheets
  {
    AllowedSheetsWellFormed();
    if sheetName == "" then Err(EmptyName)
    else
      var trimmed := Trim(sheetName);
      if |trimmed| == 0 || |trimmed| > MaxSheetNameLength then Err(BadLength)
      else if !(forall i :: 0 <= i < |trimmed| ==> IsSheetNameChar(trimmed[i])) then Err(IllegalCharacters)
      else if trimmed !in AllowedSheets then Err(NotAllowed(trimmed))
      else Ok(true)
  }

  /** Every allowed name passes the length and character checks on its own. */
  lemma AllowedSheetsWellFormed()
    ensures forall name :: name in AllowedSheets ==>
      0 < |name| <= MaxSheetNameLength && forall i :: 0 <= i < |name| ==> IsSheetNameChar(name[i])
  {
    forall name | name in AllowedSheets
      ensures 0 < |name| <= MaxSheetNameLength && forall i :: 0 <= i < |name| ==> IsSheetNameChar(name[i])
    {
      assert name in {"Task", "Project", "Employee", "TaskStatus", "TaskType", "Location", "ProjectStatus"};
    }
  }

  /** An allowed name surrounded by whitespace still validates. */
  lemma PaddedAllowedNameValidates(before: string, name: string, after: string)
    requires name in AllowedSheets
    requires AllWhitespace(before) && AllWhitespace(after)
    ensures ValidateSheetName(before + name + after) == Ok(true)
  {
    assert name != [] && !IsWhitespace(name[0]) && !IsWhitespace(name[|name| - 1]);
    TrimPadded(before, name, after);
  }

  /** A spreadsheet cell as Apps Script hands it over; Missing is null or undefined. */
  datatype Cell = Missing | Present(text: string)

  /**
   * validateAndSanitizeValue: null, undefined and '' become ''; a value longer
   * than the limit is cut to its first MaxValueLength characters; any other
   * value is kept as it is.
   */
  function ValidateAndSanitizeValue(value: Cell): (r: string)
    ensures |r| <= MaxValueLength
    ensures value.Missing? ==> r == ""
    ensures value.Present? ==> r <= value.text
    ensures value.Present? && |value.text| <= MaxValueLength ==> r == value.text
    ensures value.Present? && |value.text| > MaxValueLength ==> |r| == MaxValueLength
  {
    match value
    case Missing => ""
    case Present(s) =>
      if s == "" then ""
      else if |s| > MaxValueLength then s[..MaxValueLength]
      else s
  }

  /** Sanitising a sanitised value changes nothing. */
  lemma SanitizeIdempotent(value: Cell)
    ensures ValidateAndSanitizeValue(Present(ValidateAndSanitizeValue(value))) == ValidateAndSanitizeValue(value)
  {
  }

  /** `row[index]`: a row shorter than the header row reads undefined past its end. */
  function CellAt(row: seq<Cell>, index: nat): (c: Cell)
    ensures index < |row| ==> c == row[index]
    ensures c.Present? ==> index < |row|
  {
    if index < |row| then row[index] else Missing
  }

  /** `values.shift().map(header => header.trim())`; None when a header is null or undefined, where trim throws. */
  function HeaderNames(headerRow: seq<Cell>): (headers: Option<seq<string>>)
    ensures headers.Some? <==> forall j :: 0 <= j < |headerRow| ==> headerRow[j].Present?
    ensures headers.Some? ==> |headers.value| == |headerRow|
    ensures headers.Some? ==> forall j :: 0 <= j < |headerRow| ==> headers.value[j] == Trim(headerRow[j].text)
  {
    if forall j :: 0 <= j < |headerRow| ==> headerRow[j].Present? then
      Some(seq(|headerRow|, j requires 0 <= j < |headerRow| => Trim(headerRow[j].text)))
    else None
  }

  /**
   * The object one data row becomes: the headers are visited left to right and
   * every non-empty one sets its property, so a repeated header keeps the value
   * of its rightmost column.
   */
  function RecordOf(headers: seq<string>, row: seq<Cell>): (obj: Record)
    ensures forall k :: k in obj ==> |obj[k]| <= MaxValueLength
    decreases |headers|
  {
    if headers == [] then map[]
    else
      var obj := RecordOf(headers[..|headers| - 1], row);
      var header := headers[|headers| - 1];
      if header != "" then obj[header := ValidateAndSanitizeValue(CellAt(row, |headers| - 1))] else obj
  }

  /** The properties of a row's record are exactly its non-empty headers. */
  lemma {:induction false} RecordOfKeys(headers: seq<string>, row: seq<Cell>)
    ensures RecordOf(headers, row).Keys == set j | 0 <= j < |headers| && headers[j] != "" :: headers[j]
    ensures "" !in RecordOf(headers, row)
    decreases |headers|
  {
    if headers != [] {
      var init := headers[..|headers| - 1];
      RecordOfKeys(init, row);
      assert forall j :: 0 <= j < |init| ==> init[j] == headers[j];
    }
  }

  /** A column whose header does not recur to its right contributes its own sanitised cell. */
  lemma {:induction false} RecordOfValue(headers: seq<string>, row: seq<Cell>, j: nat)
    requires j < |headers| && headers[j] != ""
    requires forall k :: j < k < |headers| ==> headers[k] != headers[j]
    ensures headers[j] in RecordOf(headers, row)
    ensures RecordOf(headers, row)[headers[j]] == ValidateAndSanitizeValue(CellAt(row, j))
    decreases |headers|
  {
    if j < |headers| - 1 {
      var init := headers[..|headers| - 1];
      RecordOfValue(init, row, j);
    }
  }

  /** Fills the object for one row, header by header (the forEach of sheetToObjects). */
  method RowToRecord(headers: seq<string>, row: seq<Cell>) returns (obj: Record)
    ensures obj == RecordOf(headers, row)
  {
    obj := map[];
    var index := 0;
    while index < |headers|
      invariant 0 <= index <= |headers|
      invariant obj == RecordOf(headers[..index], row)
    {
      assert headers[..index + 1][..index] == headers[..index];
      var header := headers[index];
      if header != "" {
        obj := obj[header := ValidateAndSanitizeValue(CellAt(row, index))];
      }
      index := index + 1;
    }
    assert headers[..index] == headers;
  }

  /** `obj.ID && obj.ID.toString().length > 0` */
  predicate HasId(obj: Record)
    ensures HasId(obj) <==> "ID" in obj && obj["ID"] != ""
  {
    Field(obj, "ID") != ""
  }

  /** What getSheetByName and getDataRange().getValues() yield for a sheet name. */
  datatype Sheet =
    | Values(rows: seq<seq<Cell>>)   // the sheet's values, header row first
    | NotFound                       // getSheetByName returned null
    | Unavailable                    // opening the spreadsheet or reading the range threw

  /**
   * sheetToObjects: a bad name, an unreadable spreadsheet or a null header
   * fail with the one generic message; a missing sheet, or one without a data
   * row, gives no records; otherwise every data row becomes a record and those
   * without an ID are dropped.
   */
  function SheetObjects(sheetName: string, sheet: Sheet): (r: Result<seq<Record>, string>)
    ensures r.Err? ==> r.error == AccessErrorMessage
    ensures ValidateSheetName(sheetName).Err? ==> r.Err?
    ensures ValidateSheetName(sheetName).Ok? && sheet.Unavailable? ==> r == Err(AccessErrorMessage)
    ensures ValidateSheetName(sheetName).Ok? && sheet.Values? && |sheet.rows| >= 2 && HeaderNames(sheet.rows[0]).None? ==>
      r == Err(AccessErrorMessage)
    ensures ValidateSheetName(sheetName).Ok? && sheet.NotFound? ==> r == Ok([])
    ensures ValidateSheetName(sheetName).Ok? && sheet.Values? && |sheet.rows| < 2 ==> r == Ok([])
    ensures r.Ok? ==> forall k :: 0 <= k < |r.value| ==> Field(r.value[k], "ID") != ""
    ensures r.Ok? && sheet.Values? ==> |r.value| <= |sheet.rows| - 1 || r.value == []
  {
    if ValidateSheetName(sheetName).Err? then Err(AccessErrorMessage)
    else match sheet
      case Unavailable => Err(AccessErrorMessage)
      case NotFound => Ok([])
      case Values(values) =>
        if |values| < 2 then Ok([])
        else match HeaderNames(values[0])
          case None => Err(AccessErrorMessage)
          case Some(headers) => Ok(Filter(HasId, Map(row => RecordOf(headers, row), values[1..])))
  }

  /**
   * The records of a readable sheet are its data rows' records, in sheet
   * order, with the rows lacking an ID left out and every row having one kept
   * (duplicate rows included, as often as they occur);
   * no record has a property named by an empty header.
   */
  lemma SheetObjectsRecords(sheetName: string, values: seq<seq<Cell>>)
    requires ValidateSheetName(sheetName).Ok? && |values| >= 2 && HeaderNames(values[0]).Some?
    ensures var headers := HeaderNames(values[0]).value;
            var rowRecords := Map(row => RecordOf(headers, row), values[1..]);
            var r := SheetObjects(sheetName, Values(values));
            && r.Ok?
            && IsSubsequence(r.value, rowRecords)
            && (forall k :: 0 <= k < |rowRecords| && HasId(rowRecords[k]) ==> rowRecords[k] in r.value)
            && (forall rec :: rec in rowRecords ==>
                  multiset(r.value)[rec] == if HasId(rec) then multiset(rowRecords)[rec] else 0)
            && (forall rec :: rec in r.value ==> "" !in rec && rec.Keys <= set j | 0 <= j < |headers| :: headers[j])
  {
    var headers := HeaderNames(values[0]).value;
    var rowRecords := Map(row => RecordOf(headers, row), values[1..]);
    var r := SheetObjects(sheetName, Values(values));
    FilterCount(HasId, rowRecords);
    forall rec | rec in r.value
      ensures "" !in rec && rec.Keys <= set j | 0 <= j < |headers| :: headers[j]
    {
      assert rec in rowRecords;
      var k :| 0 <= k < |rowRecords| && rowRecords[k] == rec;
      RecordOfKeys(headers, values[1..][k]);
    }
  }

  /** sheetToObjects, step by step as the source does it. */
  method SheetToObjects(sheetName: string, sheet: Sheet) returns (r: Result<seq<Record>, string>)
    ensures r == SheetObjects(sheetName, sheet)
  {
    if ValidateSheetName(sheetName).Err? {
      return Err(AccessErrorMessage);
    }
    match sheet {
      case Unavailable =>
        return Err(AccessErrorMessage);
      case NotFound =>
        return Ok([]);
      case Values(values) =>
        if |values| < 2 {
          return Ok([]);
        }
        var headerNames := HeaderNames(values[0]);
        if headerNames.None? {
          return Err(AccessErrorMessage);
        }
        var data := RowsToRecords(headerNames.value, values[1..]);
        return Ok(Filter(HasId, data));
    }
  }

  /** `values.map(row => { ... })`: one record per data row, in sheet order. */
  method RowsToRecords(headers: seq<string>, rows: seq<seq<Cell>>) returns (data: seq<Record>)
    ensures data == Map(row => RecordOf(headers, row), rows)
  {
    data := [];
    var i := 0;
    while i < |rows|
      invariant 0 <= i <= |rows|
      invariant |data| == i
      invariant forall k :: 0 <= k < i ==> data[k] == RecordOf(headers, rows[k])
    {
      var obj := RowToRecord(headers, rows[i]);
      data := data + [obj];
      i := i + 1;
    }
  }

  /**
   * arrayToMap: each item with a non-empty key field is stored under that
   * field's value (untrimmed), later items overwriting earlier ones.
   */
  function IndexBy(items: seq<Record>, keyField: string): (index: LookupMap)
    ensures |index| <= |items|
    decreases |items|
  {
    if items == [] then map[]
    else
      var index := IndexBy(items[..|items| - 1], keyField);
      var item := items[|items| - 1];
      if Field(item, keyField) != "" then index[Field(item, keyField) := item] else index
  }

  /** The keys are exactly the non-empty key-field values of the items. */
  lemma {:induction false} IndexByKeys(items: seq<Record>, keyField: string)
    ensures IndexBy(items, keyField).Keys == set i | 0 <= i < |items| && Field(items[i], keyField) != "" :: Field(items[i], keyField)
    decreases |items|
  {
    if items != [] {
      var init := items[..|items| - 1];
      IndexByKeys(init, keyField);
      assert forall i :: 0 <= i < |init| ==> init[i] == items[i];
    }
  }

  /** Every stored item is one of the items and carries its key in the key field; '' is never a key. */
  lemma {:induction false} IndexByStoresOwnKey(items: seq<Record>, keyField: string)
    ensures "" !in IndexBy(items, keyField)
    ensures forall k :: k in IndexBy(items, keyField) ==>
      Field(IndexBy(items, keyField)[k], keyField) == k && IndexBy(items, keyField)[k] in items
    decreases |items|
  {
    if items != [] {
      var init := items[..|items| - 1];
      IndexByStoresOwnKey(init, keyField);
      assert forall x :: x in init ==> x in items;
    }
  }

  /** Last write wins: the stored item for a key is the last item carrying that key. */
  lemma {:induction false} IndexByLastWins(items: seq<Record>, keyField: string, i: nat)
    requires i < |items| && Field(items[i], keyField) != ""
    requires forall j :: i < j < |items| ==> Field(items[j], keyField) != Field(items[i], keyField)
    ensures Field(items[i], keyField) in IndexBy(items, keyField)
    ensures IndexBy(items, keyField)[Field(items[i], keyField)] == items[i]
    decreases |items|
  {
    if i < |items| - 1 {
      var init := items[..|items| - 1];
      IndexByLastWins(init, keyField, i);
    }
  }

  /** arrayToMap, filling the index item by item. */
  method ArrayToMap(items: seq<Record>, keyField: string) returns (index: LookupMap)
    ensures index == IndexBy(items, keyField)
  {
    index := map[];
    var i := 0;
    while i < |items|
      invariant 0 <= i <= |items|
      invariant index == IndexBy(items[..i], keyField)
    {
      assert items[..i + 1][..i] == items[..i];
      var item := items[i];
      if Field(item, keyField) != "" {
        index := index[Field(item, keyField) := item];
      }
      i := i + 1;
    }
    assert items[..i] == items;
  }

  /** The cache entry a sheet's index is kept under: `map_<sheetName>_v1`. */
  function CacheKey(sheetName: string): (key: string)
    ensures |key| == |sheetName| + 7
    ensures key[..4] == "map_" && key[4..4 + |sheetName|] == sheetName && key[4 + |sheetName|..] == "_v1"
  {
    "map_" + sheetName + "_v1"
  }

  /** Distinct sheets never share a cache entry. */
  lemma CacheKeyInjective(a: string, b: string)
    requires CacheKey(a) == CacheKey(b)
    ensures a == b
  {
    var ka, kb := CacheKey(a), CacheKey(b);
    assert |a| == |b|;
    assert a == ka[4..4 + |a|];
    assert b == kb[4..4 + |b|];
  }

  /** What a fresh read of a sheet gives: its records, indexed by keyField. */
  function FreshIndex(sheetName: string, keyField: string, sheet: Sheet): (r: Result<LookupMap, string>)
    ensures r.Err? ==> r.error == AccessErrorMessage
    ensures r.Ok? ==> forall k :: k in r.value ==> k != "" && Field(r.value[k], keyField) == k && HasId(r.value[k])
  {
    match SheetObjects(sheetName, sheet)
    case Err(e) => Err(e)
    case Ok(records) =>
      IndexByStoresOwnKey(records, keyField);
      Ok(IndexBy(records, keyField))
  }

  /**
   * The script cache as getSheetAsMapWithCache uses it: a store of indexes by
   * cache key, in front of a sheet reader that always yields the same values
   * for the same sheet name. The ghost counter records how many times a sheet
   * was actually read.
   */
  class LookupCache {
    const read: string -> Sheet
    var entries: map<string, LookupMap>
    ghost var sheetReads: nat

    constructor (read: string -> Sheet)
      ensures this.read == read && entries == map[] && sheetReads == 0
    {
      this.read := read;
      entries := map[];
      sheetReads := 0;
    }

    /**
     * getSheetAsMapWithCache: with useCache and an entry present, returns it
     * and reads nothing; otherwise reads the sheet once and indexes it, and
     * with useCache offers the index to the cache, whose put may fail without
     * affecting the result. Without useCache the cache is left alone.
     */
    method GetSheetAsMapWithCache(sheetName: string, keyField: string, useCache: bool) returns (r: Result<LookupMap, string>)
      modifies this
      ensures useCache && CacheKey(sheetName) in old(entries) ==>
        r == Ok(old(entries)[CacheKey(sheetName)]) && entries == old(entries) && sheetReads == old(sheetReads)
      ensures !(useCache && CacheKey(sheetName) in old(entries)) ==>
        r == FreshIndex(sheetName, keyField, read(sheetName)) && sheetReads == old(sheetReads) + 1
      ensures !(useCache && CacheKey(sheetName) in old(entries)) && useCache && r.Ok? ==>
        entries == old(entries) || entries == old(entries)[CacheKey(sheetName) := r.value]
      ensures !useCache || r.Err? ==> entries == old(entries)
      ensures useCache && r.Ok? && CacheKey(sheetName) in entries ==> entries[CacheKey(sheetName)] == r.value
    {
      var cacheKey := CacheKey(sheetName);
      if useCache && cacheKey in entries {
        return Ok(entries[cacheKey]);
      }
      sheetReads := sheetReads + 1;
      var sheetData := SheetToObjects(sheetName, read(sheetName));
      if sheetData.Err? {
        return Err(sheetData.error);
      }
      var dataMap := ArrayToMap(sheetData.value, keyField);
      if useCache {
        var stored: bool := *;   // CacheService.put may throw (a value too large); the failure is swallowed
        if stored {
          entries := entries[cacheKey := dataMap];
        }
      }
      return Ok(dataMap);
    }

    /**
     * Two cached lookups of the same sheet in a row agree, and when the first
     * left an entry behind the sheet is read at most once between them.
     */
    method FetchTwice(sheetName: string, keyField: string) returns (first: Result<LookupMap, string>, second: Result<LookupMap, string>, ghost firstStored: bool)
      modifies this
      ensures second == first
      ensures sheetReads <= old(sheetReads) + 2
      ensures firstStored ==> sheetReads <= old(sheetReads) + 1
      ensures old(CacheKey(sheetName) in entries) ==> firstStored && sheetReads == old(sheetReads)
    {
      first := GetSheetAsMapWithCache(sheetName, keyField, true);
      firstStored := CacheKey(sheetName) in entries;
      second := GetSheetAsMapWithCache(sheetName, keyField, true);
    }
  }
}
