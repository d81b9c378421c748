/**
 * The detail-page side of the BizBuySell extractor: the label/value table merge,
 * the first-present-key lookup, yes/no parsing, the reason-for-selling fallback and
 * the assembly of the detail record. The HTML is abstracted to the texts the
 * selectors find: one `Row` per `.listing-details .row`, one `DefinitionList` per `<dl>`.
 */
module BizBuySellDetail {
  import opened Wrappers
  import opened Json
  import opened Text
  import opened Database

  /** A label/value dictionary as the extractor builds it, in insertion order. */
  type Pairs = seq<(string, string)>

  /** The texts of a row's `.label`/`.detail-label` and `.value`/`.detail-value`, when found. */
  datatype Row = Row(labelText: Option<string>, valueText: Option<string>)

  /** The texts of a `<dl>`'s `<dt>` and `<dd>` elements, in document order. */
  datatype DefinitionList = DefinitionList(terms: seq<string>, definitions: seq<string>)

  /** Only pairs with a non-empty key and a non-empty value are recorded. */
  predicate Recordable(entry: (string, string)) {
    entry.0 != [] && entry.1 != []
  }

  function RowEntry(row: Row): Option<(string, string)> {
    if row.labelText.Some? && row.valueText.Some? && Recordable((row.labelText.value, row.valueText.value))
    then Some((row.labelText.value, row.valueText.value))
    else None
  }

  /** `zip(dts, dds)`: pairs up to the shorter of the two lists. */
  function Zip(dl: DefinitionList): (ps: seq<(string, string)>)
    ensures |ps| <= |dl.terms| && |ps| <= |dl.definitions|
    ensures |ps| == |dl.terms| || |ps| == |dl.definitions|
    ensures forall i :: 0 <= i < |ps| ==> ps[i] == (dl.terms[i], dl.definitions[i])
  {
    var n := if |dl.terms| < |dl.definitions| then |dl.terms| else |dl.definitions|;
    seq(n, i requires 0 <= i < n => (dl.terms[i], dl.definitions[i]))
  }

  /** Every zipped term/definition pair of every list, in document order. */
  function ZipAll(dls: seq<DefinitionList>): seq<(string, string)> {
    if dls == [] then [] else ZipAll(dls[..|dls| - 1]) + Zip(dls[|dls| - 1])
  }

  /** The row entry is recordable and labelled `k`. */
  predicate Labelled(e: Option<(string, string)>, k: string) {
    e.Some? && e.value.0 == k
  }

  /** No row from index `lo` on is recordable with label `k`. */
  predicate NoneLabelled(rows: seq<Row>, k: string, lo: nat) {
    forall j :: lo <= j < |rows| ==> !Labelled(RowEntry(rows[j]), k)
  }

  /** Dropping a last row that is not labelled `k` does not change which rows are. */
  lemma DropUnlabelled(rows: seq<Row>, k: string, lo: nat)
    requires rows != [] && lo < |rows| && !Labelled(RowEntry(rows[|rows| - 1]), k)
    ensures NoneLabelled(rows[..|rows| - 1], k, lo) <==> NoneLabelled(rows, k, lo)
  {
    var prefix := rows[..|rows| - 1];
    assert forall j :: lo <= j < |prefix| ==> prefix[j] == rows[j];
  }

  /** The value of the last recordable row labelled `k`. */
  function LastRowValue(rows: seq<Row>, k: string): (r: Option<string>)
    ensures r.None? <==> NoneLabelled(rows, k, 0)
    ensures r.Some? ==> exists i :: 0 <= i < |rows| && RowEntry(rows[i]) == Some((k, r.value)) && NoneLabelled(rows, k, i + 1)
  {
    if rows == [] then None
    else
      var last := RowEntry(rows[|rows| - 1]);
      if Labelled(last, k) then Some(last.value.1)
      else
        var prefix := rows[..|rows| - 1];
        var r := LastRowValue(prefix, k);
        DropUnlabelled(rows, k, 0);
        assert r.Some? ==> exists i :: 0 <= i < |rows| && RowEntry(rows[i]) == Some((k, r.value)) && NoneLabelled(rows, k, i + 1) by {
          if r.Some? {
            var i :| 0 <= i < |prefix| && RowEntry(prefix[i]) == Some((k, r.value)) && NoneLabelled(prefix, k, i + 1);
            assert prefix[i] == rows[i];
            DropUnlabelled(rows, k, i + 1);
          }
        }
        r
  }

  /** The value of the first recordable pair with key `k`. */
  function FirstValue(ps: seq<(string, string)>, k: string): (r: Option<string>)
    ensures r.None? <==> forall i :: 0 <= i < |ps| ==> !Recordable(ps[i]) || ps[i].0 != k
    ensures r.Some? ==> exists i :: (0 <= i < |ps| && ps[i] == (k, r.value) && Recordable(ps[i])
                                     && forall j :: 0 <= j < i ==> !Recordable(ps[j]) || ps[j].0 != k)
  {
    if ps == [] then None
    else
      var earlier := FirstValue(ps[..|ps| - 1], k);
      assert forall i :: 0 <= i < |ps| - 1 ==> ps[..|ps| - 1][i] == ps[i];
      if earlier.Some? then earlier
      else
        var last := ps[|ps| - 1];
        if Recordable(last) && last.0 == k then Some(last.1) else None
  }

  /** The row layout wins; a definition list only supplies keys no row recorded. */
  function Combine(fromRows: Option<string>, fromLists: Option<string>): Option<string> {
    if fromRows.Some? then fromRows else fromLists
  }

  /** What the merged dictionary holds under `k`. */
  function Recorded(rows: seq<Row>, dls: seq<DefinitionList>, k: string): Option<string> {
    Combine(LastRowValue(rows, k), FirstValue(ZipAll(dls), k))
  }

  /** Looking up `k` in the pairs of two lists read one after the other. */
  lemma {:induction false} FirstValueAppend(xs: seq<(string, string)>, ys: seq<(string, string)>)
    ensures forall k :: FirstValue(xs + ys, k) == Combine(FirstValue(xs, k), FirstValue(ys, k))
    decreases |ys|
  {
    if ys != [] {
      var ys' := ys[..|ys| - 1];
      assert (xs + ys)[..|xs + ys| - 1] == xs + ys';
      assert (xs + ys)[|xs + ys| - 1] == ys[|ys| - 1];
      FirstValueAppend(xs, ys');
    } else {
      assert xs + ys == xs;
    }
  }

  /** Every recorded pair has a non-empty key and a non-empty value. */
  ghost predicate AllRecordable(ps: Pairs) {
    forall e :: e in ps ==> Recordable(e)
  }

  /** Recording a pair keeps the keys unique and every pair recordable. */
  lemma PutPair(ps: Pairs, key: string, val: string)
    requires UniqueKeys(ps) && AllRecordable(ps) && Recordable((key, val))
    ensures UniqueKeys(Put(ps, key, val)) && AllRecordable(Put(ps, key, val))
  {
    PutKeepsUniqueKeys(ps, key, val);
  }

  /** One row of the row loop: a recordable row overwrites its key. */
  lemma RowStep(pairs: Pairs, pairs': Pairs, rows: seq<Row>, i: nat)
    requires i < |rows|
    requires forall k :: Get(pairs, k) == LastRowValue(rows[..i], k)
    requires RowEntry(rows[i]).None? ==> pairs' == pairs
    requires RowEntry(rows[i]).Some? ==> pairs' == Put(pairs, RowEntry(rows[i]).value.0, RowEntry(rows[i]).value.1)
    ensures forall k :: Get(pairs', k) == LastRowValue(rows[..i + 1], k)
  {
    assert rows[..i + 1][..i] == rows[..i];
    assert rows[..i + 1][i] == rows[i];
  }

  /** One pair of the `setdefault` loop: a recordable pair fills its key if it is still free. */
  lemma DefaultStep(pairs: Pairs, r: Pairs, r': Pairs, ps: seq<(string, string)>, z: nat)
    requires z < |ps|
    requires forall k :: Get(r, k) == Combine(Get(pairs, k), FirstValue(ps[..z], k))
    requires Recordable(ps[z]) && !HasKey(r, ps[z].0) ==> r' == Put(r, ps[z].0, ps[z].1)
    requires !(Recordable(ps[z]) && !HasKey(r, ps[z].0)) ==> r' == r
    ensures forall k :: Get(r', k) == Combine(Get(pairs, k), FirstValue(ps[..z + 1], k))
  {
    assert ps[..z + 1][..z] == ps[..z];
    assert ps[..z + 1][z] == ps[z];
    GetFound(r, ps[z].0);
  }

  /** The row loop of `_extract_key_value_pairs`: a later row overwrites an earlier one. */
  method RowPairs(rows: seq<Row>) returns (pairs: Pairs)
    ensures UniqueKeys(pairs)
    ensures AllRecordable(pairs)
    ensures forall k :: Get(pairs, k) == LastRowValue(rows, k)
  {
    pairs := [];
    var i := 0;
    while i < |rows|
      invariant 0 <= i <= |rows|
      invariant UniqueKeys(pairs)
      invariant AllRecordable(pairs)
      invariant forall k :: Get(pairs, k) == LastRowValue(rows[..i], k)
    {
      var row := rows[i];
      ghost var prev := pairs;
      if row.labelText.Some? && row.valueText.Some? {
        var key := row.labelText.value;
        var val := row.valueText.value;
        if key != [] && val != [] {
          PutPair(pairs, key, val);
          pairs := Put(pairs, key, val);
        }
      }
      RowStep(prev, pairs, rows, i);
      i := i + 1;
    }
    assert rows[..i] == rows;
  }

  /**
   * The `setdefault` loop over the zipped pairs of one definition list: a recordable
   * pair is added only under a key not yet present.
   */
  method SetDefaults(pairs: Pairs, ps: seq<(string, string)>) returns (r: Pairs)
    requires UniqueKeys(pairs)
    requires AllRecordable(pairs)
    ensures UniqueKeys(r)
    ensures AllRecordable(r)
    ensures forall k :: Get(r, k) == Combine(Get(pairs, k), FirstValue(ps, k))
  {
    r := pairs;
    var z := 0;
    while z < |ps|
      invariant 0 <= z <= |ps|
      invariant UniqueKeys(r)
      invariant AllRecordable(r)
      invariant forall k :: Get(r, k) == Combine(Get(pairs, k), FirstValue(ps[..z], k))
    {
      var key := ps[z].0;
      var val := ps[z].1;
      ghost var prev := r;
      if key != [] && val != [] && !HasKey(r, key) {
        PutPair(r, key, val);
        r := Put(r, key, val);
      }
      DefaultStep(pairs, prev, r, ps, z);
      z := z + 1;
    }
    assert ps[..z] == ps;
  }

  /**
   * `_extract_key_value_pairs`: rows are assigned (a later row overwrites an earlier
   * one), definition-list pairs go through `setdefault` (never overwriting).
   */
  method KeyValuePairs(rows: seq<Row>, dls: seq<DefinitionList>) returns (pairs: Pairs)
    ensures UniqueKeys(pairs)
    ensures AllRecordable(pairs)
    ensures forall k :: Get(pairs, k) == Recorded(rows, dls, k)
  {
    pairs := RowPairs(rows);
    var d := 0;
    while d < |dls|
      invariant 0 <= d <= |dls|
      invariant UniqueKeys(pairs)
      invariant AllRecordable(pairs)
      invariant forall k :: Get(pairs, k) == Combine(LastRowValue(rows, k), FirstValue(ZipAll(dls[..d]), k))
    {
      pairs := SetDefaults(pairs, Zip(dls[d]));
      FirstValueAppend(ZipAll(dls[..d]), Zip(dls[d]));
      assert dls[..d + 1][..d] == dls[..d];
      d := d + 1;
    }
    assert dls[..d] == dls;
  }

  /** `_find_kv_value`: the value under the first of `keys` that is present. */
  function FindKv(pairs: Pairs, keys: seq<string>): (r: Option<string>)
    ensures r.None? <==> forall i :: 0 <= i < |keys| ==> !HasKey(pairs, keys[i])
    ensures r.Some? ==> exists i :: (0 <= i < |keys| && HasKey(pairs, keys[i]) && Get(pairs, keys[i]) == r
                                     && forall j :: 0 <= j < i ==> !HasKey(pairs, keys[j]))
  {
    if keys == [] then None
    else if HasKey(pairs, keys[0]) then GetFound(pairs, keys[0]); Get(pairs, keys[0])
    else
      var r := FindKv(pairs, keys[1..]);
      assert forall i :: 1 <= i < |keys| ==> keys[1..][i - 1] == keys[i];
      r
  }

  const YesWords: seq<string> := ["yes", "y", "included", "true"]
  const NoWords: seq<string> := ["no", "n", "not included", "false"]

  /** `_parse_yes_no`: a tri-state over the trimmed, lower-cased text. */
  function ParseYesNo(value: Option<string>): (r: Option<bool>)
    ensures value.None? || value.value == [] ==> r.None?
    ensures r == Some(true) <==> value.Some? && Lower(Strip(value.value)) in YesWords
    ensures r == Some(false) <==> value.Some? && Lower(Strip(value.value)) in NoWords
  {
    if value.None? || value.value == [] then None
    else
      var normalized := Lower(Strip(value.value));
      if normalized in YesWords then Some(true)
      else if normalized in NoWords then Some(false)
      else None
  }

  /** Case does not matter to the yes/no reading. */
  lemma ParseYesNoIgnoresCase(s: string)
    ensures ParseYesNo(Some(Upper(s))) == ParseYesNo(Some(s))
  {
    UpperOfStrip(s);
    LowerOfUpper(Strip(s));
  }

  /** Surrounding white space does not matter to the yes/no reading. */
  lemma ParseYesNoIgnoresPadding(u: string, s: string, v: string)
    requires AllSpace(u) && AllSpace(v) && IsStripped(s) && s != []
    ensures ParseYesNo(Some(u + s + v)) == ParseYesNo(Some(s))
  {
    StripPadded(u, s, v);
    StripStripped(s);
  }

  /** `s` starts with `p`, ignoring case. */
  predicate StartsWithIgnoringCase(s: string, p: string) {
    |p| <= |s| && Lower(s[..|p|]) == p
  }

  /** Stripping keeps a leading heading that neither starts nor ends with white space. */
  lemma StripKeepsLabel(t: string, heading: string)
    requires heading != [] && IsStripped(heading)
    requires StartsWithIgnoringCase(t, heading)
    ensures StartsWithIgnoringCase(Strip(t), heading)
  {
    assert LowerChar(t[0]) == heading[0];
    assert LowerChar(t[|heading| - 1]) == heading[|heading| - 1];
    assert !IsSpace(t[0]) && !IsSpace(t[|heading| - 1]);
    assert LeadingSpace(t) == 0;
    assert TrailingStart(t) >= |heading|;
    assert Strip(t)[..|heading|] == t[..|heading|];
  }

  /** The "owner retiring" test is subsumed by the "retiring" test beside it. */
  lemma OwnerRetiringMentionsRetiring(s: string)
    ensures Contains(s, "owner retiring") ==> Contains(s, "retiring")
  {
    assert OccursAt("owner retiring", "retiring", 6);
    if Contains(s, "owner retiring") {
      ContainsTransitive(s, "owner retiring", "retiring");
    }
  }

  const SaleLabel: string := "reason for sale"
  const SellingLabel: string := "reason for selling"

  /**
   * `_extract_reason_from_text`: the text from the first "reason for sale" (else the
   * first "reason for selling") on, trimmed; else "Owner retiring" when the text
   * mentions retiring; else None.
   */
  function ReasonFromText(text: Option<string>): (r: Option<string>)
    ensures text.None? || text.value == [] ==> r.None?
    ensures text.Some? && Contains(Lower(text.value), SaleLabel) ==>
              && r.Some? && StartsWithIgnoringCase(r.value, SaleLabel)
              && r.value == Strip(text.value[IndexOf(Lower(text.value), SaleLabel)..])
    ensures text.Some? && !Contains(Lower(text.value), SaleLabel) && Contains(Lower(text.value), SellingLabel) ==>
              && r.Some? && StartsWithIgnoringCase(r.value, SellingLabel)
              && r.value == Strip(text.value[IndexOf(Lower(text.value), SellingLabel)..])
    ensures text.Some? && !Contains(Lower(text.value), SaleLabel) && !Contains(Lower(text.value), SellingLabel) ==>
              && (r == Some("Owner retiring") <==> Contains(Lower(text.value), "retiring"))
              && (r.Some? ==> r == Some("Owner retiring"))
  {
    if text.None? || text.value == [] then None
    else
      var t := text.value;
      var lower := Lower(t);
      if Contains(lower, SaleLabel) || Contains(lower, SellingLabel) then
        var first := IndexOf(lower, SaleLabel);
        var start := if first == -1 then IndexOf(lower, SellingLabel) else first;
        var heading := if first == -1 then SellingLabel else SaleLabel;
        assert lower[start..start + |heading|] == heading;
        assert Lower(t[start..][..|heading|]) == heading by {
          assert t[start..][..|heading|] == t[start..start + |heading|];
        }
        StripKeepsLabel(t[start..], heading);
        Some(Strip(t[start..]))
      else
        OwnerRetiringMentionsRetiring(lower);
        if Contains(lower, "owner retiring") || Contains(lower, "retiring") then Some("Owner retiring")
        else None
  }

  /** What the detail page's selectors found, before any fallback. */
  datatype DetailTexts = DetailTexts(
    jsonDescription: Option<string>,  // the first truthy JSON-LD `description`, trimmed
    description: Option<string>,      // the first non-empty description block
    location: Option<string>,         // the first non-empty location block
    labeledReason: Option<string>,    // the text next to a "Reason for Selling" heading
    rows: seq<Row>,
    lists: seq<DefinitionList>)

  const YearsKeys: seq<string> := ["Years in Business", "Years in business"]
  const EmployeesKeys: seq<string> := ["Employees", "Number of Employees", "# Employees"]
  const InventoryKeys: seq<string> := ["Inventory", "Inventory Value"]
  const TrainingKeys: seq<string> := ["Training", "Training Provided"]
  const RealEstateKeys: seq<string> := ["Real Estate", "Real Estate Included"]

  function OptStr(o: Option<string>): Value {
    if o.Some? then Str(o.value) else Null
  }

  function OptBool(o: Option<bool>): Value {
    if o.Some? then Bool(o.value) else Null
  }

  /** Python's `a or b` on optional texts: None and "" are false. */
  function OrText(a: Option<string>, b: Option<string>): (r: Option<string>)
    ensures a.Some? && a.value != [] ==> r == a
    ensures a.None? || a.value == [] ==> r == b
  {
    if a.Some? && a.value != [] then a else b
  }

  /** `kv_pairs or None`, as a JSON object of strings. */
  function FinancialDetails(pairs: Pairs): (v: Value)
    ensures v.Null? <==> pairs == []
    ensures v.Obj? ==>
              && |v.entries| == |pairs|
              && forall i :: 0 <= i < |pairs| ==> v.entries[i] == (pairs[i].0, Str(pairs[i].1))
  {
    if pairs == [] then Null
    else Obj(seq(|pairs|, i requires 0 <= i < |pairs| => (pairs[i].0, Str(pairs[i].1))))
  }

  /** The values of the detail columns, in the order of `DetailColumns`. */
  function DetailValues(page: DetailTexts, pairs: Pairs): (vs: seq<Value>)
    ensures |vs| == |DetailColumns|
  {
    [ OptStr(OrText(page.description, page.jsonDescription)),
      FinancialDetails(pairs),
      OptStr(FindKv(pairs, YearsKeys)),
      OptStr(FindKv(pairs, EmployeesKeys)),
      OptBool(ParseYesNo(FindKv(pairs, RealEstateKeys))),
      OptStr(FindKv(pairs, InventoryKeys)),
      OptBool(ParseYesNo(FindKv(pairs, TrainingKeys))),
      OptStr(page.location),
      OptStr(OrText(page.labeledReason, ReasonFromText(page.jsonDescription))) ]
  }

  /**
   * `parse_detail_page` once the selectors have run and `KeyValuePairs` has merged the
   * heading/value tables into `pairs`: the nine detail columns, each from its selector,
   * its fallback or its lookup in the pairs.
   */
  function DetailFields(page: DetailTexts, pairs: Pairs): (d: Dict)
    ensures Keys(d) == DetailColumns
    ensures Get(d, "financial_details") == Some(Null) <==> pairs == []
    ensures Get(d, "full_description") == Some(OptStr(OrText(page.description, page.jsonDescription)))
    ensures Get(d, "years_in_business") == Some(OptStr(FindKv(pairs, YearsKeys)))
    ensures Get(d, "employees") == Some(OptStr(FindKv(pairs, EmployeesKeys)))
    ensures Get(d, "real_estate_included") == Some(OptBool(ParseYesNo(FindKv(pairs, RealEstateKeys))))
    ensures Get(d, "inventory_value") == Some(OptStr(FindKv(pairs, InventoryKeys)))
    ensures Get(d, "training_included") == Some(OptBool(ParseYesNo(FindKv(pairs, TrainingKeys))))
    ensures Get(d, "detailed_location") == Some(OptStr(page.location))
    ensures Get(d, "reason_for_selling") == Some(OptStr(OrText(page.labeledReason, ReasonFromText(page.jsonDescription))))
  {
    var vs := DetailValues(page, pairs);
    var d := Entries(DetailColumns, vs);
    forall j | 0 <= j < |d| ensures d[j] == (DetailColumns[j], vs[j]) {
      EntriesAt(DetailColumns, vs, j);
    }
    DetailColumnsUnique();
    assert UniqueKeys(d);
    assert Keys(d) == DetailColumns;
    GetUnique(d, 0);
    GetUnique(d, 1);
    GetUnique(d, 2);
    GetUnique(d, 3);
    GetUnique(d, 4);
    GetUnique(d, 5);
    GetUnique(d, 6);
    GetUnique(d, 7);
    GetUnique(d, 8);
    d
  }
}
