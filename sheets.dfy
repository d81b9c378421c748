/**
 * Export of Google Maps lead records: each record is normalised to one dictionary
 * with a fixed set of columns, the rows for a sheet are a header followed by one
 * row per record in column order, and the sheet export checks its arguments and
 * sizes the worksheet before writing the rows.
 */
module Sheets {
  import opened Wrappers
  import opened Json
  import GoogleMaps

  /** `GOOGLE_MAPS_COLUMNS`, in sheet order. */
  const Columns: seq<string> := [
    "source", "vendor_name", "category", "address", "city", "state", "phone", "website",
    "rating", "reviews", "place_id", "data_id", "data_cid", "latitude", "longitude",
    "source_url", "query", "location", "fetched_at_utc"]

  const DefaultSource := "google_maps"
  const DefaultState := "TN"
  const SheetsUrl := "https://docs.google.com/spreadsheets/d/"
  const MinRows: nat := 1000
  const MinCols: nat := 26

  /** No column name occurs twice. */
  lemma ColumnsDistinct()
    ensures |Columns| == 19
    ensures forall i, j :: 0 <= i < j < |Columns| ==> Columns[i] != Columns[j]
  {
  }

  /**
   * `_safe_float`: None stays None, numbers and booleans become floats, a text is
   * parsed by `parse` (Python's `float` on a string), and anything else is None.
   */
  function SafeFloat(v: Value, parse: string -> Option<real>): (r: Value)
    ensures r.Null? || r.Num?
    ensures v.Num? ==> r == v
    ensures v.Int? ==> r == Num(v.i as real)
    ensures v.Bool? ==> r == Num(if v.b then 1.0 else 0.0)
    ensures v.Str? ==> (r.Num? <==> parse(v.s).Some?)
    ensures r.Null? <==> v.Null? || v.Obj? || (v.Str? && parse(v.s).None?)
  {
    match v
    case Null => Null
    case Bool(b) => Num(if b then 1.0 else 0.0)
    case Int(i) => Num(i as real)
    case Num(x) => Num(x)
    case Str(s) => (match parse(s) case Some(x) => Num(x) case None => Null)
    case Obj(_) => Null
  }

  /** A float converted again is the same float. */
  lemma SafeFloatIdempotent(v: Value, parse: string -> Option<real>)
    ensures SafeFloat(SafeFloat(v, parse), parse) == SafeFloat(v, parse)
  {
  }

  /** `x if isinstance(x, dict) else {}`, where a missing key reads as None. */
  function DictOrEmpty(v: Value): (r: Dict)
    ensures v.Obj? ==> r == v.entries
    ensures !v.Obj? ==> r == []
  {
    match v
    case Obj(e) => e
    case _ => []
  }

  /** `d.get(k) or ""`. */
  function TextOr(d: Dict, k: string): Value {
    Or(At(d, k), Str(""))
  }

  /** `fetched_at_utc or now`, where `now` is the current UTC time in ISO form. */
  function Timestamp(fetchedAt: Option<string>, now: string): (ts: string)
    ensures fetchedAt.Some? && fetchedAt.value != "" ==> ts == fetchedAt.value
    ensures fetchedAt.None? || fetchedAt.value == "" ==> ts == now
  {
    if fetchedAt.Some? && fetchedAt.value != "" then fetchedAt.value else now
  }

  /** The positions of the text columns read from the record itself: vendor name, city, source URL. */
  const RecordTextColumns: set<nat> := {1, 4, 15}

  /**
   * The positions of the text columns read from `raw_data` under their own names:
   * address, phone, website, reviews, place id, data id, data cid, query, location.
   */
  const RawTextColumns: set<nat> := {3, 6, 7, 9, 10, 11, 12, 16, 17}

  /** The value `normalize_google_maps_record` writes in column `j`. */
  function Cell(record: Dict, ts: string, parse: string -> Option<real>, j: nat): Value
    requires j < |Columns|
  {
    var raw := DictOrEmpty(At(record, "raw_data"));
    var gps := DictOrEmpty(At(raw, "gps_coordinates"));
    if j in RecordTextColumns then TextOr(record, Columns[j])
    else if j in RawTextColumns then TextOr(raw, Columns[j])
    else match j
    case 0 => GetOr(record, "source", Str(DefaultSource))
    case 2 => Or(Or(At(record, "contract_category"), At(raw, "type")), Str(""))
    case 5 => Or(At(record, "state"), Str(DefaultState))
    case 8 => SafeFloat(At(raw, "rating"), parse)
    case 13 => SafeFloat(At(gps, "latitude"), parse)
    case 14 => SafeFloat(At(gps, "longitude"), parse)
    case _ => Str(ts)
  }

  /** `n` is the dictionary normalising `record` at fetch time `ts`: one entry per column, in order. */
  ghost predicate IsNormalized(n: Dict, record: Dict, ts: string, parse: string -> Option<real>) {
    && Keys(n) == Columns
    && forall j {:trigger Cell(record, ts, parse, j)} :: 0 <= j < |Columns| ==> n[j].1 == Cell(record, ts, parse, j)
  }

  /**
   * `normalize_google_maps_record`: one entry per column, in column order; `now` is
   * the current UTC time, used when no non-empty fetch time is given.
   */
  function Normalize(record: Dict, fetchedAt: Option<string>, now: string, parse: string -> Option<real>): (r: Dict)
    ensures Keys(r) == Columns
    ensures IsNormalized(r, record, Timestamp(fetchedAt, now), parse)
  {
    var ts := Timestamp(fetchedAt, now);
    seq(|Columns|, j requires 0 <= j < |Columns| => (Columns[j], Cell(record, ts, parse, j)))
  }

  /** Reading a column of a dictionary whose keys are the columns finds its own entry. */
  lemma ColumnAt(n: Dict, j: nat)
    requires Keys(n) == Columns && j < |Columns|
    ensures Get(n, Columns[j]) == Some(n[j].1)
  {
    ColumnsDistinct();
    forall i | 0 <= i < j ensures n[i].0 != Columns[j] {
      assert n[i].0 == Keys(n)[i];
    }
    assert n[j].0 == Keys(n)[j];
    GetAtFirst(n, Columns[j], j);
  }

  /** Every column of a normalised record reads as the cell computed for it. */
  lemma ColumnValue(n: Dict, record: Dict, ts: string, parse: string -> Option<real>, j: nat)
    requires IsNormalized(n, record, ts, parse) && j < |Columns|
    ensures Get(n, Columns[j]) == Some(Cell(record, ts, parse, j))
  {
    ColumnAt(n, j);
    assert n[j].1 == Cell(record, ts, parse, j);
  }

  /** The source is kept whenever the record has the key, even with an empty value; "google_maps" only when it is missing. */
  lemma NormalizedSource(n: Dict, record: Dict, ts: string, parse: string -> Option<real>)
    requires IsNormalized(n, record, ts, parse)
    ensures HasKey(record, "source") ==> Get(n, "source") == Get(record, "source")
    ensures !HasKey(record, "source") ==> At(n, "source") == Str("google_maps")
  {
    GetFound(record, "source");
    ColumnValue(n, record, ts, parse, 0);
  }

  /** The state falls back to "TN" when it is missing or empty. */
  lemma NormalizedState(n: Dict, record: Dict, ts: string, parse: string -> Option<real>)
    requires IsNormalized(n, record, ts, parse)
    ensures Truthy(At(record, "state")) ==> At(n, "state") == At(record, "state")
    ensures !Truthy(At(record, "state")) ==> At(n, "state") == Str("TN")
  {
    assert At(n, "state") == Or(At(record, "state"), Str(DefaultState)) by {
      ColumnValue(n, record, ts, parse, 5);
      assert Columns[5] == "state";
    }
  }

  /** The vendor name, the city and the source URL are kept when non-empty and are "" otherwise. */
  lemma NormalizedRecordText(n: Dict, record: Dict, ts: string, parse: string -> Option<real>, j: nat)
    requires IsNormalized(n, record, ts, parse) && j in RecordTextColumns
    ensures Truthy(At(record, Columns[j])) ==> At(n, Columns[j]) == At(record, Columns[j])
    ensures !Truthy(At(record, Columns[j])) ==> At(n, Columns[j]) == Str("")
  {
    ColumnValue(n, record, ts, parse, j);
  }

  /** The category is the contract category, else the raw type, else "". */
  lemma NormalizedCategory(n: Dict, record: Dict, ts: string, parse: string -> Option<real>)
    requires IsNormalized(n, record, ts, parse)
    ensures var raw := DictOrEmpty(At(record, "raw_data"));
      && (Truthy(At(record, "contract_category")) ==> At(n, "category") == At(record, "contract_category"))
      && (!Truthy(At(record, "contract_category")) && Truthy(At(raw, "type")) ==> At(n, "category") == At(raw, "type"))
      && (!Truthy(At(record, "contract_category")) && !Truthy(At(raw, "type")) ==> At(n, "category") == Str(""))
  {
    ColumnValue(n, record, ts, parse, 2);
  }

  /** A non-empty fetch time is written verbatim; otherwise the current time is. */
  lemma NormalizedFetchedAt(record: Dict, fetchedAt: Option<string>, now: string, parse: string -> Option<real>)
    ensures var n := Normalize(record, fetchedAt, now, parse);
      && (fetchedAt.Some? && fetchedAt.value != "" ==> At(n, "fetched_at_utc") == Str(fetchedAt.value))
      && (fetchedAt.None? || fetchedAt.value == "" ==> At(n, "fetched_at_utc") == Str(now))
  {
    ColumnValue(Normalize(record, fetchedAt, now, parse), record, Timestamp(fetchedAt, now), parse, 18);
  }

  /** A place field of `raw_data` is kept when non-empty and is "" otherwise. */
  lemma NormalizedRawText(n: Dict, record: Dict, ts: string, parse: string -> Option<real>, j: nat)
    requires IsNormalized(n, record, ts, parse) && j in RawTextColumns
    ensures var raw := DictOrEmpty(At(record, "raw_data"));
      && (Truthy(At(raw, Columns[j])) ==> At(n, Columns[j]) == At(raw, Columns[j]))
      && (!Truthy(At(raw, Columns[j])) ==> At(n, Columns[j]) == Str(""))
  {
    ColumnValue(n, record, ts, parse, j);
  }

  /** The rating and the coordinates are floats of the raw values, or None. */
  lemma NormalizedNumbers(n: Dict, record: Dict, ts: string, parse: string -> Option<real>)
    requires IsNormalized(n, record, ts, parse)
    ensures var raw := DictOrEmpty(At(record, "raw_data"));
      var gps := DictOrEmpty(At(raw, "gps_coordinates"));
      && At(n, "rating") == SafeFloat(At(raw, "rating"), parse)
      && At(n, "latitude") == SafeFloat(At(gps, "latitude"), parse)
      && At(n, "longitude") == SafeFloat(At(gps, "longitude"), parse)
  {
    var raw := DictOrEmpty(At(record, "raw_data"));
    var gps := DictOrEmpty(At(raw, "gps_coordinates"));
    assert At(n, "rating") == SafeFloat(At(raw, "rating"), parse) by {
      ColumnValue(n, record, ts, parse, 8);
      assert Columns[8] == "rating";
    }
    assert At(n, "latitude") == SafeFloat(At(gps, "latitude"), parse) by {
      ColumnValue(n, record, ts, parse, 13);
      assert Columns[13] == "latitude";
    }
    assert At(n, "longitude") == SafeFloat(At(gps, "longitude"), parse) by {
      ColumnValue(n, record, ts, parse, 14);
      assert Columns[14] == "longitude";
    }
  }

  /**
   * A `raw_data` that is not a dictionary reads as an empty one: every place field
   * is "", the rating and the coordinates are None, and the category comes from the
   * record alone.
   */
  lemma NonDictRawIsEmpty(n: Dict, record: Dict, ts: string, parse: string -> Option<real>)
    requires IsNormalized(n, record, ts, parse)
    requires !At(record, "raw_data").Obj?
    ensures forall j :: j in RawTextColumns ==> At(n, Columns[j]) == Str("")
    ensures At(n, "rating") == Null && At(n, "latitude") == Null && At(n, "longitude") == Null
    ensures At(n, "category") == Or(At(record, "contract_category"), Str(""))
  {
    forall j | j in RawTextColumns ensures At(n, Columns[j]) == Str("") {
      NormalizedRawText(n, record, ts, parse, j);
    }
    NormalizedNumbers(n, record, ts, parse);
    NormalizedCategory(n, record, ts, parse);
  }

  /** A `gps_coordinates` that is not a dictionary leaves both coordinates None. */
  lemma NonDictGpsIsEmpty(n: Dict, record: Dict, ts: string, parse: string -> Option<real>)
    requires IsNormalized(n, record, ts, parse)
    requires !At(DictOrEmpty(At(record, "raw_data")), "gps_coordinates").Obj?
    ensures At(n, "latitude") == Null && At(n, "longitude") == Null
  {
    NormalizedNumbers(n, record, ts, parse);
  }

  // ---------------------------------------------------------------- rows

  /** The header row: the column names. */
  function Header(): (h: seq<Value>)
    ensures |h| == |Columns|
    ensures forall j :: 0 <= j < |Columns| ==> h[j] == Str(Columns[j])
  {
    seq(|Columns|, j requires 0 <= j < |Columns| => Str(Columns[j]))
  }

  /** `[normalized.get(col, "") for col in GOOGLE_MAPS_COLUMNS]` */
  function RowOf(normalized: Dict): (row: seq<Value>)
    ensures |row| == |Columns|
  {
    seq(|Columns|, j requires 0 <= j < |Columns| => GetOr(normalized, Columns[j], Str("")))
  }

  /** The row of a normalised record holds its values in column order; no cell falls back to "". */
  lemma RowOfNormalized(record: Dict, fetchedAt: Option<string>, now: string, parse: string -> Option<real>)
    ensures var n := Normalize(record, fetchedAt, now, parse);
      forall j :: 0 <= j < |Columns| ==> RowOf(n)[j] == n[j].1 && Get(n, Columns[j]).Some?
  {
    var n := Normalize(record, fetchedAt, now, parse);
    forall j | 0 <= j < |Columns| ensures RowOf(n)[j] == n[j].1 && Get(n, Columns[j]).Some? {
      ColumnAt(n, j);
    }
  }

  /** `build_google_maps_rows`: the header, then one row per record, in order. */
  function BuildRows(records: seq<Dict>, fetchedAt: Option<string>, now: string, parse: string -> Option<real>)
    : (rows: seq<seq<Value>>)
    ensures |rows| == |records| + 1
    ensures rows[0] == Header()
    ensures forall i :: 0 <= i < |rows| ==> |rows[i]| == |Columns|
  {
    [Header()] + seq(|records|, i requires 0 <= i < |records| => RowOf(Normalize(records[i], fetchedAt, now, parse)))
  }

  /**
   * Row `i + 1` holds record `i`'s normalised fields in column order, so the header
   * names each cell below it: cell `j` is what `normalize_google_maps_record` puts
   * under `Columns[j]`.
   */
  lemma BuildRowsCells(records: seq<Dict>, fetchedAt: Option<string>, now: string, parse: string -> Option<real>,
                       i: nat, j: nat)
    requires i < |records| && j < |Columns|
    ensures BuildRows(records, fetchedAt, now, parse)[i + 1][j]
      == Cell(records[i], Timestamp(fetchedAt, now), parse, j)
  {
    var n := Normalize(records[i], fetchedAt, now, parse);
    assert BuildRows(records, fetchedAt, now, parse)[i + 1] == RowOf(n);
    RowOfNormalized(records[i], fetchedAt, now, parse);
  }

  // ---------------------------------------------------------------- sheet export

  /**
   * What `export_google_maps_records_to_sheet` asks of the spreadsheet: the worksheet
   * to open, or to create with the given size when it is missing, whether to clear
   * it, the rows written from cell A1, and the URL it returns.
   */
  datatype SheetWrite = SheetWrite(
    worksheetName: string, requiredRows: nat, requiredCols: nat, clearFirst: bool,
    rows: seq<seq<Value>>, url: string)

  /** The argument checks and sizing of `export_google_maps_records_to_sheet`. */
  function ExportToSheet(records: seq<Dict>, spreadsheetId: string, credentialsPath: string,
                         worksheetName: string, clearFirst: bool,
                         fetchedAt: Option<string>, now: string, parse: string -> Option<real>)
    : (r: Result<SheetWrite>)
    ensures spreadsheetId == "" ==> r == Err("spreadsheet_id is required")
    ensures spreadsheetId != "" && credentialsPath == "" ==> r == Err("credentials_path is required")
    ensures r.Ok? <==> spreadsheetId != "" && credentialsPath != ""
    ensures r.Ok? ==> r.value.rows == BuildRows(records, fetchedAt, now, parse)
    ensures r.Ok? ==> r.value.requiredRows >= MinRows && r.value.requiredRows >= |r.value.rows| + 10
    ensures r.Ok? ==> r.value.requiredRows == MinRows || r.value.requiredRows == |r.value.rows| + 10
    ensures r.Ok? ==> r.value.requiredCols == MinCols
    ensures r.Ok? ==> forall i :: 0 <= i < |r.value.rows| ==> |r.value.rows[i]| + 2 <= r.value.requiredCols
    ensures r.Ok? ==> r.value.worksheetName == worksheetName && r.value.clearFirst == clearFirst
    ensures r.Ok? ==> r.value.url == SheetsUrl + spreadsheetId
  {
    if spreadsheetId == "" then Err("spreadsheet_id is required")
    else if credentialsPath == "" then Err("credentials_path is required")
    else
      var rows := BuildRows(records, fetchedAt, now, parse);
      var requiredRows := if |rows| + 10 > MinRows then |rows| + 10 else MinRows;
      var requiredCols := if |Columns| + 2 > MinCols then |Columns| + 2 else MinCols;
      Ok(SheetWrite(worksheetName, requiredRows, requiredCols, clearFirst, rows, SheetsUrl + spreadsheetId))
  }

  // ---------------------------------------------------------------- leads

  /** A lead built by the Google Maps ingest normalises to source "google_maps" and its vendor name. */
  lemma NormalizedLead(n: Dict, l: GoogleMaps.Lead, ts: string, parse: string -> Option<real>)
    requires IsNormalized(n, GoogleMaps.Record(l), ts, parse)
    requires l.vendorName != []
    ensures At(n, "source") == Str("google_maps")
    ensures At(n, "vendor_name") == Str(l.vendorName)
  {
    var rec := GoogleMaps.Record(l);
    assert At(n, "source") == Str("google_maps") by {
      GetAtFirst(rec, "source", 0);
      NormalizedSource(n, rec, ts, parse);
    }
    assert At(n, "vendor_name") == Str(l.vendorName) by {
      GetAtFirst(rec, "vendor_name", 1);
      NormalizedRecordText(n, rec, ts, parse, 1);
    }
  }

  /** A lead's state and source URL, when non-empty, survive normalisation. */
  lemma NormalizedLeadPlace(n: Dict, l: GoogleMaps.Lead, ts: string, parse: string -> Option<real>)
    requires IsNormalized(n, GoogleMaps.Record(l), ts, parse)
    requires l.state != [] && l.sourceUrl != []
    ensures At(n, "state") == Str(l.state)
    ensures At(n, "source_url") == Str(l.sourceUrl)
  {
    var rec := GoogleMaps.Record(l);
    assert At(n, "state") == Str(l.state) by {
      GetAtFirst(rec, "state", 9);
      NormalizedState(n, rec, ts, parse);
    }
    assert At(n, "source_url") == Str(l.sourceUrl) by {
      GetAtFirst(rec, "source_url", 11);
      NormalizedRecordText(n, rec, ts, parse, 15);
    }
  }

  /** The `raw_data` of a lead's record is the lead's raw data dictionary. */
  lemma LeadRaw(l: GoogleMaps.Lead)
    ensures DictOrEmpty(At(GoogleMaps.Record(l), "raw_data")) == GoogleMaps.RawData(l)
  {
    GetAtFirst(GoogleMaps.Record(l), "raw_data", 12);
  }

  /** The search terms of a lead, when non-empty, survive normalisation. */
  lemma NormalizedLeadSearch(n: Dict, l: GoogleMaps.Lead, ts: string, parse: string -> Option<real>)
    requires IsNormalized(n, GoogleMaps.Record(l), ts, parse)
    ensures l.query != [] ==> At(n, "query") == Str(l.query)
    ensures l.location != [] ==> At(n, "location") == Str(l.location)
  {
    var rec := GoogleMaps.Record(l);
    var raw := GoogleMaps.RawData(l);
    LeadRaw(l);
    assert At(n, "query") == TextOr(raw, "query") by {
      NormalizedRawText(n, rec, ts, parse, 16);
      assert Columns[16] == "query";
    }
    assert At(raw, "query") == Str(l.query) by {
      GetAtFirst(raw, "query", 0);
    }
    assert At(n, "location") == TextOr(raw, "location") by {
      NormalizedRawText(n, rec, ts, parse, 17);
      assert Columns[17] == "location";
    }
    assert At(raw, "location") == Str(l.location) by {
      GetAtFirst(raw, "location", 1);
    }
  }

  /** A lead's category is its category when truthy, "" otherwise. */
  lemma NormalizedLeadCategory(n: Dict, l: GoogleMaps.Lead, ts: string, parse: string -> Option<real>)
    requires IsNormalized(n, GoogleMaps.Record(l), ts, parse)
    ensures Truthy(l.category) ==> At(n, "category") == l.category
    ensures !Truthy(l.category) ==> At(n, "category") == Str("")
  {
    var rec := GoogleMaps.Record(l);
    var raw := GoogleMaps.RawData(l);
    LeadRaw(l);
    assert At(n, "category") == Or(Or(l.category, l.category), Str("")) by {
      GetAtFirst(rec, "contract_category", 5);
      GetAtFirst(raw, "type", 7);
      NormalizedCategory(n, rec, ts, parse);
    }
  }

  /** The fetch time the export tests pass. */
  const SampleTime := "2026-02-13T00:00:00Z"

  /** The sample record of the export tests. */
  function SampleRecord(): Dict {
    [ ("source", Str("google_maps")),
      ("vendor_name", Str("Sunrise Coffee")),
      ("contract_category", Str("Coffee shop")),
      ("city", Str("Nashville")),
      ("state", Str("TN")),
      ("source_url", Str("https://www.google.com/maps")),
      ("raw_data", Obj(SampleRaw())) ]
  }

  function SampleRaw(): Dict {
    [ ("query", Str("coffee shops")),
      ("location", Str("Nashville, Tennessee")),
      ("address", Str("123 Main St, Nashville, TN 37203")),
      ("phone", Str("+1 615-555-0100")),
      ("website", Str("https://sunrisecoffee.example")),
      ("rating", Num(4.6)),
      ("reviews", Int(215)),
      ("type", Str("Coffee shop")),
      ("place_id", Str("place_1")),
      ("data_id", Str("data_1")),
      ("data_cid", Str("cid_1")),
      ("gps_coordinates", Obj([("latitude", Num(36.1627)), ("longitude", Num(-86.7816))])) ]
  }

  /** The sample's `raw_data` is a dictionary: `SampleRaw()`. */
  lemma SampleRawData()
    ensures DictOrEmpty(At(SampleRecord(), "raw_data")) == SampleRaw()
  {
    GetAtFirst(SampleRecord(), "raw_data", 6);
  }

  /**
   * The sample normalises to its vendor name; `Normalize(SampleRecord(), Some(SampleTime), now, parse)`
   * is such an `n` for every `now`, and so for the sample lemmas below.
   */
  lemma SampleVendor(n: Dict, parse: string -> Option<real>)
    requires IsNormalized(n, SampleRecord(), SampleTime, parse)
    ensures At(n, "vendor_name") == Str("Sunrise Coffee")
  {
    GetAtFirst(SampleRecord(), "vendor_name", 1);
    NormalizedRecordText(n, SampleRecord(), SampleTime, parse, 1);
  }

  /** The sample's query is "coffee shops". */
  lemma SampleQuery(n: Dict, parse: string -> Option<real>)
    requires IsNormalized(n, SampleRecord(), SampleTime, parse)
    ensures At(n, "query") == Str("coffee shops")
  {
    SampleRawData();
    GetAtFirst(SampleRaw(), "query", 0);
    NormalizedRawText(n, SampleRecord(), SampleTime, parse, 16);
  }

  /** The sample's latitude is 36.1627, a number already. */
  lemma SampleLatitude(n: Dict, parse: string -> Option<real>)
    requires IsNormalized(n, SampleRecord(), SampleTime, parse)
    ensures At(n, "latitude") == Num(36.1627)
  {
    SampleRawData();
    GetAtFirst(SampleRaw(), "gps_coordinates", 11);
    GetAtFirst(SampleRaw()[11].1.entries, "latitude", 0);
    NormalizedNumbers(n, SampleRecord(), SampleTime, parse);
  }

  /** The row built from the sample starts with its source and vendor name. */
  lemma SampleRow(n: Dict, parse: string -> Option<real>)
    requires IsNormalized(n, SampleRecord(), SampleTime, parse)
    ensures RowOf(n)[0] == Str("google_maps") && RowOf(n)[1] == Str("Sunrise Coffee")
  {
    assert At(n, "source") == Str("google_maps") by {
      GetAtFirst(SampleRecord(), "source", 0);
      NormalizedSource(n, SampleRecord(), SampleTime, parse);
    }
    SampleVendor(n, parse);
    ColumnAt(n, 0);
    ColumnAt(n, 1);
  }
}
