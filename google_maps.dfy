/**
 * Google Maps lead ingest through SerpApi: validating the ingest settings, turning one
 * search result into a lead record, and the paged fetch loop that drops duplicate leads
 * within a run and, through a file of seen ids, across runs.
 *
 * The SerpApi request is an oracle `search` from the `start` offset to the page's
 * `local_results`, or to the error the request raised; the seen-ids file is the list of texts it holds.
 */
module GoogleMaps {
  import opened Wrappers
  import opened Json
  import opened Text
  import opened Sorting

  /** Results per SerpApi page: the loop advances `start` by this much. */
  const PageSize: nat := 20
  const MapsUrl: string := "https://www.google.com/maps"
  const DefaultState: string := "TN"

  /** The settings of a `GoogleMapsIngest` that the fetch loop reads. */
  datatype Ingest = Ingest(query: string, location: string, apiKey: string, limit: nat, dedupeAcrossRuns: bool)

  /** What the constructor guarantees once it has not raised. */
  predicate ValidIngest(g: Ingest) {
    && g.query != [] && IsStripped(g.query)
    && g.location != [] && IsStripped(g.location)
    && g.apiKey != []
    && g.limit >= 1
  }

  /** `api_key or os.getenv("SERPAPI_API_KEY", "")`: an absent or empty argument falls back to the environment. */
  function KeyOf(apiKey: Option<string>, envKey: string): string {
    if apiKey.Some? && apiKey.value != [] then apiKey.value else envKey
  }

  /**
   * `GoogleMapsIngest.__init__`: the query and location are stripped, the limit is
   * raised to at least 1, and an empty query, location or key raises ValueError,
   * checked in that order.
   */
  function NewIngest(query: string, location: string, apiKey: Option<string>, envKey: string,
                     limit: int, dedupeAcrossRuns: bool): (r: Result<Ingest>)
    ensures r.Ok? <==> Strip(query) != [] && Strip(location) != [] && KeyOf(apiKey, envKey) != []
    ensures Strip(query) == [] ==> r == Err("query is required")
    ensures Strip(query) != [] && Strip(location) == [] ==> r == Err("location is required")
    ensures Strip(query) != [] && Strip(location) != [] && KeyOf(apiKey, envKey) == []
      ==> r == Err("SERPAPI_API_KEY is required")
    ensures r.Ok? ==> ValidIngest(r.value) && r.value.dedupeAcrossRuns == dedupeAcrossRuns
    ensures r.Ok? ==> r.value.query == Strip(query) && r.value.location == Strip(location)
    ensures r.Ok? ==> r.value.apiKey == KeyOf(apiKey, envKey)
    ensures r.Ok? ==> (limit >= 1 ==> r.value.limit == limit) && (limit < 1 ==> r.value.limit == 1)
  {
    var q := Strip(query);
    var l := Strip(location);
    var key := KeyOf(apiKey, envKey);
    var n: nat := if limit < 1 then 1 else limit;
    if q == [] then Err("query is required")
    else if l == [] then Err("location is required")
    else if key == [] then Err("SERPAPI_API_KEY is required")
    else Ok(Ingest(q, l, key, n, dedupeAcrossRuns))
  }

  // ---------------------------------------------------------------- addresses

  /** `[p.strip() for p in parts if p.strip()]` */
  function NonEmptyStripped(parts: seq<string>): (r: seq<string>)
    ensures |r| <= |parts|
    ensures forall i :: 0 <= i < |r| ==> r[i] != [] && IsStripped(r[i])
    ensures (forall i :: 0 <= i < |parts| ==> ',' !in parts[i]) ==> forall i :: 0 <= i < |r| ==> ',' !in r[i]
  {
    if parts == [] then []
    else
      var t := Strip(parts[0]);
      assert t != [] ==> forall c :: c in t ==> c in parts[0];
      (if t == [] then [] else [t]) + NonEmptyStripped(parts[1..])
  }

  /** The non-empty stripped pieces of an address between its commas. */
  function AddressParts(address: string): (r: seq<string>)
    ensures forall i :: 0 <= i < |r| ==> r[i] != [] && IsStripped(r[i]) && ',' !in r[i]
  {
    NonEmptyStripped(Split(address, ','))
  }

  /** An empty address has no parts. */
  lemma AddressPartsEmpty()
    ensures AddressParts([]) == []
  {
    assert Split([], ',') == [[]];
  }

  /**
   * `_extract_city_state`: the city is the second-to-last non-empty part of the
   * address, absent when there are fewer than two; the state is "TN" whatever the
   * last part says.
   */
  function ExtractCityState(address: Option<string>): (r: (Option<string>, string))
    ensures r.1 == DefaultState
    ensures r.0.Some? <==> address.Some? && |AddressParts(address.value)| >= 2
    ensures r.0.Some? ==> var ps := AddressParts(address.value); r.0.value == ps[|ps| - 2]
    ensures r.0.Some? ==> r.0.value != [] && IsStripped(r.0.value) && ',' !in r.0.value
  {
    if address.None? || address.value == [] then
      AddressPartsEmpty();
      (None, DefaultState)
    else
      var parts := AddressParts(address.value);
      if |parts| < 2 then (None, DefaultState)
      else
        var city := parts[|parts| - 2];
        (Some(city), StateOfPart(parts[|parts| - 1]))
  }

  /**
   * The state read from the last address part: "TN" when the upper-cased part holds
   * " TN" after a blank or is "TN", and the default state otherwise, which is "TN" too.
   */
  function StateOfPart(part: string): (state: string)
    ensures state == DefaultState
  {
    var last := Upper(part);
    if Contains(" " + last, " TN") || last == "TN" then "TN" else DefaultState
  }

  /** Splitting at the first separator when the text before it has none. */
  lemma SplitAtFirst(a: string, c: char, rest: string)
    requires c !in a
    ensures Split(a + [c] + rest, c) == [a] + Split(rest, c)
  {
    BeforeChar(a, c, rest);
  }

  /** A part that is not blank after stripping is kept, stripped. */
  lemma NonEmptyStrippedCons(p: string, rest: seq<string>)
    requires Strip(p) != []
    ensures NonEmptyStripped([p] + rest) == [Strip(p)] + NonEmptyStripped(rest)
  {
    assert ([p] + rest)[1..] == rest;
  }

  /** Splitting two comma-free pieces joined by a comma gives back the two pieces. */
  lemma SplitTwo(b: string, c: string)
    requires ',' !in b && ',' !in c
    ensures Split(b + [','] + c, ',') == [b, c]
  {
    SplitAtFirst(b, ',', c);
    assert Split(c, ',') == [c];
  }

  /** Splitting three comma-free pieces joined by commas gives back the three pieces. */
  lemma SplitThree(a: string, b: string, c: string)
    requires ',' !in a && ',' !in b && ',' !in c
    ensures Split(a + [','] + (b + [','] + c), ',') == [a, b, c]
  {
    SplitTwo(b, c);
    SplitAtFirst(a, ',', b + [','] + c);
  }

  /** A stripped text written after one blank strips back to itself. */
  lemma StripAfterBlank(t: string)
    requires IsStripped(t)
    ensures Strip(" " + t) == t
  {
    StripPadded(" ", t, []);
    assert " " + t + [] == " " + t;
  }

  /** Stripping a street, a city and a tail written after ", " keeps all three. */
  lemma StripThree(street: string, city: string, tail: string)
    requires street != [] && IsStripped(street)
    requires city != [] && IsStripped(city)
    requires tail != [] && IsStripped(tail)
    ensures NonEmptyStripped([street, " " + city, " " + tail]) == [street, city, tail]
  {
    StripStripped(street);
    StripAfterBlank(city);
    StripAfterBlank(tail);
    assert NonEmptyStripped([" " + tail]) == [tail] by {
      NonEmptyStrippedCons(" " + tail, []);
    }
    assert NonEmptyStripped([" " + city, " " + tail]) == [city, tail] by {
      NonEmptyStrippedCons(" " + city, [" " + tail]);
    }
    NonEmptyStrippedCons(street, [" " + city, " " + tail]);
    assert [street, " " + city, " " + tail] == [street] + [" " + city, " " + tail];
  }

  /** A street, a city and a state-and-zip part, separated by ", ", give that city. */
  lemma CityOfThreeParts(street: string, city: string, tail: string)
    requires street != [] && IsStripped(street) && ',' !in street
    requires city != [] && IsStripped(city) && ',' !in city
    requires tail != [] && IsStripped(tail) && ',' !in tail
    ensures ExtractCityState(Some(street + [','] + (" " + city + [','] + (" " + tail)))) == (Some(city), DefaultState)
  {
    assert ',' !in " " + city && ',' !in " " + tail;
    SplitThree(street, " " + city, " " + tail);
    StripThree(street, city, tail);
  }

  /** The address of the first sample result gives the city "Nashville". */
  lemma NashvilleAddress()
    ensures ExtractCityState(Some("123 Main St, Nashville, TN 37203")) == (Some("Nashville"), "TN")
  {
    assert "123 Main St, Nashville, TN 37203" == "123 Main St" + [','] + (" " + "Nashville" + [','] + (" " + "TN 37203"));
    CityOfThreeParts("123 Main St", "Nashville", "TN 37203");
  }

  // ---------------------------------------------------------------- records

  /** One entry of the `local_results` list of a SerpApi Google Maps response. */
  datatype Place = Place(
    title: Option<string>, address: Option<string>, placeIdSearch: Option<string>, website: Option<string>,
    placeId: Option<string>, dataId: Option<string>, kind: Value, phone: Value,
    rating: Value, reviews: Value, dataCid: Value, gps: Value)

  /** The lead record `_map_result_to_record` builds; `Record` gives its dictionary form. */
  datatype Lead = Lead(
    vendorName: string, category: Value, city: Option<string>, state: string, sourceUrl: string,
    query: string, location: string, address: Option<string>, phone: Value, website: Option<string>,
    rating: Value, reviews: Value, placeId: Option<string>, dataId: Option<string>, dataCid: Value, gps: Value)

  /** A text field that Python's `or` would take: present and non-empty. */
  predicate Given(o: Option<string>) {
    o.Some? && o.value != []
  }

  function TextValue(o: Option<string>): Value {
    match o
    case Some(s) => Str(s)
    case None => Null
  }

  /** `_map_result_to_record`: nothing for a blank title, otherwise a lead from the result. */
  function MapResultToRecord(g: Ingest, p: Place): Option<Lead> {
    var title := Strip(p.title.GetOr(""));
    if title == [] then None
    else
      var (city, state) := ExtractCityState(p.address);
      var sourceUrl :=
        if Given(p.placeIdSearch) then p.placeIdSearch.value
        else if Given(p.website) then p.website.value
        else MapsUrl;
      Some(Lead(title, p.kind, city, state, sourceUrl, g.query, g.location, p.address, p.phone, p.website,
                p.rating, p.reviews, p.placeId, p.dataId, p.dataCid, p.gps))
  }

  /**
   * A result gives a lead exactly when its title is not blank; the lead's source URL
   * is never empty, falling back from `place_id_search` to `website` to the Maps home.
   */
  lemma MappedResult(g: Ingest, p: Place)
    ensures var r := MapResultToRecord(g, p);
      && (r.None? <==> Strip(p.title.GetOr("")) == [])
      && (r.Some? ==> r.value.vendorName == Strip(p.title.GetOr("")) && IsStripped(r.value.vendorName))
      && (r.Some? ==> (r.value.city, r.value.state) == ExtractCityState(p.address))
      && (r.Some? ==> r.value.sourceUrl != [])
      && (r.Some? && Given(p.placeIdSearch) ==> r.value.sourceUrl == p.placeIdSearch.value)
      && (r.Some? && !Given(p.placeIdSearch) && Given(p.website) ==> r.value.sourceUrl == p.website.value)
      && (r.Some? && !Given(p.placeIdSearch) && !Given(p.website) ==> r.value.sourceUrl == MapsUrl)
      && (r.Some? ==> r.value.query == g.query && r.value.location == g.location)
      && (r.Some? ==> r.value.placeId == p.placeId && r.value.dataId == p.dataId && r.value.category == p.kind)
  {
  }

  /** The dictionary the source returns for a lead, with its `raw_data` part. */
  function Record(l: Lead): Dict {
    [ ("source", Str("google_maps")),
      ("vendor_name", Str(l.vendorName)),
      ("total_payments", Null),
      ("contract_amount", Null),
      ("contract_title", Null),
      ("contract_category", l.category),
      ("license_type", Null),
      ("license_status", Null),
      ("city", TextValue(l.city)),
      ("state", Str(l.state)),
      ("county", Null),
      ("source_url", Str(l.sourceUrl)),
      ("raw_data", Obj(RawData(l))) ]
  }

  function RawData(l: Lead): Dict {
    [ ("query", Str(l.query)),
      ("location", Str(l.location)),
      ("address", TextValue(l.address)),
      ("phone", l.phone),
      ("website", TextValue(l.website)),
      ("rating", l.rating),
      ("reviews", l.reviews),
      ("type", l.category),
      ("place_id", TextValue(l.placeId)),
      ("data_id", TextValue(l.dataId)),
      ("data_cid", l.dataCid),
      ("gps_coordinates", l.gps) ]
  }

  // ---------------------------------------------------------------- dedupe keys

  /** Keys as they are compared and stored: stripped and lower-cased. */
  predicate NormalKey(k: string) {
    Lower(Strip(k)) == k
  }

  /** Stripping and lower-casing a second time changes nothing. */
  lemma NormalizeIdempotent(s: string)
    ensures NormalKey(Lower(Strip(s)))
  {
    var t := Strip(s);
    var u := Lower(t);
    LowerKeepsSpace(t);
    assert IsStripped(u);
    StripStripped(u);
    LowerIdentity(u);
  }

  /** `str(place_id or data_id or vendor_name).strip().lower()` */
  function DedupeKey(l: Lead): string {
    var id :=
      if Given(l.placeId) then l.placeId.value
      else if Given(l.dataId) then l.dataId.value
      else l.vendorName;
    Lower(Strip(id))
  }

  /** The key is the place id, else the data id, else the name, and is already normal. */
  lemma DedupeKeyIs(l: Lead)
    ensures NormalKey(DedupeKey(l))
    ensures Given(l.placeId) ==> DedupeKey(l) == Lower(Strip(l.placeId.value))
    ensures !Given(l.placeId) && Given(l.dataId) ==> DedupeKey(l) == Lower(Strip(l.dataId.value))
    ensures !Given(l.placeId) && !Given(l.dataId) ==> DedupeKey(l) == Lower(Strip(l.vendorName))
  {
    var id :=
      if Given(l.placeId) then l.placeId.value
      else if Given(l.dataId) then l.dataId.value
      else l.vendorName;
    NormalizeIdempotent(id);
  }

  /** The keys of `ls`. */
  function KeySet<T(==)>(key: T -> string, ls: seq<T>): set<string> {
    set x | x in ls :: key(x)
  }

  lemma KeySetSnoc<T>(key: T -> string, ls: seq<T>, x: T)
    ensures KeySet(key, ls + [x]) == KeySet(key, ls) + {key(x)}
  {
    assert forall y :: y in ls + [x] <==> y in ls || y == x;
  }

  // ---------------------------------------------------------------- the leads a run keeps

  /** `_map_result_to_record` of an ingest, as the fetch loop applies it. */
  function Mapper(g: Ingest): Place -> Option<Lead> {
    p => MapResultToRecord(g, p)
  }

  /** What the first `n` results of a page map to, in page order; results mapped to nothing are skipped. */
  function PageLeads<P, L>(mapping: P -> Option<L>, rows: seq<P>, n: nat): (r: seq<L>)
    requires n <= |rows|
    ensures |r| <= n
  {
    if n == 0 then []
    else
      var m := mapping(rows[n - 1]);
      PageLeads(mapping, rows, n - 1) + (if m.Some? then [m.value] else [])
  }

  /** Reading fewer results of a page gives a prefix of what it maps to. */
  lemma {:induction false} PageLeadsOfPrefix<P, L>(mapping: P -> Option<L>, rows: seq<P>, n: nat, m: nat)
    requires n <= m <= |rows|
    ensures PageLeads(mapping, rows, n) <= PageLeads(mapping, rows, m)
    decreases m
  {
    if n < m {
      PageLeadsOfPrefix(mapping, rows, n, m - 1);
    }
  }

  /** The answer of `_search_page` for the `k`-th page, `start = 20 * k`: its results, or the error it raised. */
  function PageAt<P>(search: nat -> Result<seq<P>>, k: nat): Result<seq<P>> {
    search(PageSize * k)
  }

  /** The results of the `k`-th page; a page that raised has none. */
  function PageRows<P>(search: nat -> Result<seq<P>>, k: nat): (r: seq<P>)
    ensures PageAt(search, k).Ok? ==> r == PageAt(search, k).value
    ensures PageAt(search, k).Err? ==> r == []
  {
    var answer := search(PageSize * k);
    if answer.Ok? then answer.value else []
  }

  /** What the first `n` pages map to; page `k` is the answer for `start = 20 * k`. */
  function Candidates<P, L>(mapping: P -> Option<L>, search: nat -> Result<seq<P>>, n: nat): seq<L> {
    if n == 0 then []
    else
      var page := PageRows(search, n - 1);
      Candidates(mapping, search, n - 1) + PageLeads(mapping, page, |page|)
  }

  /**
   * The reference for deduplication: the elements of `cands`, in order, whose key is
   * neither in `seen` nor the key of an element kept before them.
   */
  function Fresh<T(==)>(key: T -> string, seen: set<string>, cands: seq<T>): (r: seq<T>)
    ensures |r| <= |cands|
  {
    if cands == [] then []
    else
      var kept := Fresh(key, seen, cands[..|cands| - 1]);
      var x := cands[|cands| - 1];
      if key(x) in seen || key(x) in KeySet(key, kept) then kept else kept + [x]
  }

  /** One more candidate is kept exactly when its key is new. */
  lemma FreshSnoc<T>(key: T -> string, seen: set<string>, cs: seq<T>, x: T)
    ensures var kept := Fresh(key, seen, cs);
      Fresh(key, seen, cs + [x]) == if key(x) in seen || key(x) in KeySet(key, kept) then kept else kept + [x]
  {
    assert (cs + [x])[..|cs|] == cs;
  }

  /** No key is in `seen` and no two keys are equal. */
  ghost predicate NewAndDistinct<T>(key: T -> string, seen: set<string>, r: seq<T>) {
    && (forall i :: 0 <= i < |r| ==> key(r[i]) !in seen)
    && (forall i, j :: 0 <= i < j < |r| ==> key(r[i]) != key(r[j]))
  }

  /** Kept elements have pairwise different keys, none of them already seen. */
  lemma {:induction false} FreshDistinct<T>(key: T -> string, seen: set<string>, cands: seq<T>)
    ensures NewAndDistinct(key, seen, Fresh(key, seen, cands))
  {
    if cands != [] {
      var init := cands[..|cands| - 1];
      var x := cands[|cands| - 1];
      var kept := Fresh(key, seen, init);
      FreshDistinct(key, seen, init);
      assert NewAndDistinct(key, seen, kept);
      FreshSnoc(key, seen, init, x);
      assert init + [x] == cands;
      if key(x) !in seen && key(x) !in KeySet(key, kept) {
        var r := kept + [x];
        forall i | 0 <= i < |r| ensures key(r[i]) !in seen {
          if i < |kept| {
            assert r[i] == kept[i];
          }
        }
        forall i, j | 0 <= i < j < |r| ensures key(r[i]) != key(r[j]) {
          assert r[i] == kept[i] && key(kept[i]) in KeySet(key, kept);
          if j < |kept| {
            assert r[j] == kept[j];
          }
        }
        assert NewAndDistinct(key, seen, r);
      }
    }
  }

  /** Nothing is lost: every candidate's key was seen before or is the key of a kept element. */
  lemma {:induction false} FreshCovers<T>(key: T -> string, seen: set<string>, cands: seq<T>)
    ensures forall x :: x in cands ==> key(x) in seen || key(x) in KeySet(key, Fresh(key, seen, cands))
  {
    if cands != [] {
      var init := cands[..|cands| - 1];
      FreshCovers(key, seen, init);
      assert cands == init + [cands[|cands| - 1]];
      var kept := Fresh(key, seen, init);
      assert KeySet(key, kept) <= KeySet(key, Fresh(key, seen, cands));
    }
  }

  /** The kept elements keep the order in which the pages listed them. */
  lemma {:induction false} FreshInOrder<T>(key: T -> string, seen: set<string>, cands: seq<T>)
    ensures Subsequence(Fresh(key, seen, cands), cands)
  {
    if cands != [] {
      var init := cands[..|cands| - 1];
      var x := cands[|cands| - 1];
      FreshInOrder(key, seen, init);
      var kept := Fresh(key, seen, init);
      if key(x) in seen || key(x) in KeySet(key, kept) {
        SubsequenceSnoc(kept, init, x);
        assert init + [x] == cands;
      } else {
        assert (kept + [x])[..|kept|] == kept;
      }
    }
  }

  /** Scanning further candidates only appends to what was kept. */
  lemma {:induction false} FreshOfPrefix<T>(key: T -> string, seen: set<string>, a: seq<T>, b: seq<T>)
    requires a <= b
    ensures Fresh(key, seen, a) <= Fresh(key, seen, b)
    decreases |b|
  {
    if |a| < |b| {
      var init := b[..|b| - 1];
      assert a <= init;
      FreshOfPrefix(key, seen, a, init);
      var kept := Fresh(key, seen, init);
      var x := b[|b| - 1];
      assert Fresh(key, seen, b) == kept || Fresh(key, seen, b) == kept + [x];
      assert kept <= Fresh(key, seen, b);
    } else {
      assert a == b;
    }
  }

  /** The first `n` elements, or all of them when there are fewer. */
  function Take<T>(s: seq<T>, n: nat): (r: seq<T>)
    ensures |r| <= n && r <= s
    ensures |s| <= n ==> r == s
  {
    if |s| <= n then s else s[..n]
  }

  // ---------------------------------------------------------------- the seen-ids file

  /**
   * `_load_seen_ids`: `stored` is the list in the seen-ids file, as the texts of its
   * items, and is absent when the file is missing, unreadable or not a list.
   */
  function LoadSeenIds(g: Ingest, stored: Option<seq<string>>): (r: set<string>)
    ensures !g.dedupeAcrossRuns || stored.None? ==> r == {}
    ensures forall k :: k in r ==> k != [] && NormalKey(k)
    ensures g.dedupeAcrossRuns && stored.Some? ==>
      forall x :: x in stored.value && Strip(x) != [] ==> Lower(Strip(x)) in r
    ensures g.dedupeAcrossRuns && stored.Some? ==>
      forall k :: k in r ==> exists x :: x in stored.value && Strip(x) != [] && Lower(Strip(x)) == k
  {
    if !g.dedupeAcrossRuns || stored.None? then {}
    else
      var items := stored.value;
      var r := set x | x in items && Strip(x) != [] :: Lower(Strip(x));
      assert forall k :: k in r ==> k != [] && NormalKey(k) by {
        forall k | k in r ensures k != [] && NormalKey(k) {
          var x :| x in items && Strip(x) != [] && Lower(Strip(x)) == k;
          NormalizeIdempotent(x);
        }
      }
      r
  }

  /** The order the saved file lists ids in: Python's `sorted` on strings. */
  function IdBefore(a: string, b: string): bool {
    LexLess(a, b)
  }

  lemma IdBeforeIsStrictWeakOrder()
    ensures StrictWeakOrder(IdBefore)
  {
    forall a, b ensures IdBefore(a, b) ==> !IdBefore(b, a) {
      LexLessAsymmetric(a, b);
    }
    forall a, b, c ensures IdBefore(a, c) ==> IdBefore(a, b) || IdBefore(b, c) {
      LexLessNotAfterTransitive(a, b, c);
    }
  }

  /**
   * `_save_seen_ids`: with cross-run dedupe the file is rewritten with the ids in sorted
   * order; without it nothing is written.
   */
  method SaveSeenIds(g: Ingest, seen: set<string>) returns (written: Option<seq<string>>)
    ensures written.None? <==> !g.dedupeAcrossRuns
    ensures written.Some? ==> (forall x :: x in written.value <==> x in seen) && |written.value| == |seen|
    ensures written.Some? ==> SortedBy(written.value, IdBefore)
  {
    if !g.dedupeAcrossRuns {
      return None;
    }
    var ids: seq<string> := [];
    var rest := seen;
    while rest != {}
      invariant forall x :: x in ids <==> x in seen && x !in rest
      invariant rest <= seen
      invariant |ids| + |rest| == |seen|
      decreases |rest|
    {
      var x :| x in rest;
      ids := ids + [x];
      rest := rest - {x};
    }
    var sorted := SortBy(ids, IdBefore);
    IdBeforeIsStrictWeakOrder();
    SortBySorted(ids, IdBefore);
    assert forall x :: x in sorted <==> x in multiset(ids);
    written := Some(sorted);
  }

  /** Reading back a saved file gives the saved ids, less an empty one, which loading skips. */
  lemma ReloadSavedIds(g: Ingest, seen: set<string>, file: seq<string>)
    requires g.dedupeAcrossRuns
    requires forall k :: k in seen ==> NormalKey(k)
    requires forall x :: x in file <==> x in seen
    ensures LoadSeenIds(g, Some(file)) == seen - {""}
  {
    var r := LoadSeenIds(g, Some(file));
    forall k | k in seen - {""} ensures k in r {
      assert Strip(k) != [] by { assert Lower(Strip(k)) == k; }
    }
    forall k | k in r ensures k in seen - {""} {
      var x :| x in file && Strip(x) != [] && Lower(Strip(x)) == k;
      assert Lower(Strip(x)) == x;
    }
  }

  // ---------------------------------------------------------------- the fetch loop

  /** One result more of a page adds what it maps to, if anything. */
  lemma PageLeadsStep<P, L>(mapping: P -> Option<L>, rows: seq<P>, i: nat)
    requires i < |rows|
    ensures var m := mapping(rows[i]);
      PageLeads(mapping, rows, i + 1) == PageLeads(mapping, rows, i) + (if m.Some? then [m.value] else [])
  {
  }

  /** One candidate more: kept, with its key added to the seen ids, exactly when its key is not yet seen. */
  lemma ScanStep<T>(key: T -> string, seen0: set<string>, read: seq<T>, kept: seq<T>, seen: set<string>, x: T)
    requires kept == Fresh(key, seen0, read) && seen == seen0 + KeySet(key, kept)
    ensures key(x) in seen ==> Fresh(key, seen0, read + [x]) == kept
    ensures key(x) !in seen ==> Fresh(key, seen0, read + [x]) == kept + [x]
    ensures seen + {key(x)} == seen0 + KeySet(key, kept + [x])
  {
    FreshSnoc(key, seen0, read, x);
    KeySetSnoc(key, kept, x);
  }

  /**
   * The `for row in rows` loop of `fetch` over one page: `used` results are read, the
   * leads kept grow to the reference `Fresh` of what has been read, and the scan stops
   * early only once `limit` leads are kept.
   */
  method ScanPage(limit: nat, mapping: Place -> Option<Lead>, key: Lead -> string, rows: seq<Place>,
                  ghost seen0: set<string>, ghost before: seq<Lead>, records: seq<Lead>, seen: set<string>)
    returns (records': seq<Lead>, seen': set<string>, added: nat, ghost used: nat)
    requires records == Fresh(key, seen0, before) && |records| < limit
    requires seen == seen0 + KeySet(key, records)
    ensures used <= |rows|
    ensures records' == Fresh(key, seen0, before + PageLeads(mapping, rows, used))
    ensures |records'| <= limit
    ensures used < |rows| ==> |records'| == limit
    ensures seen' == seen0 + KeySet(key, records')
    ensures added == |records'| - |records|
  {
    records', seen', added := records, seen, 0;
    var i := 0;
    ghost var read := before;
    assert before + [] == before;
    while i < |rows| && |records'| < limit
      invariant 0 <= i <= |rows|
      invariant read == before + PageLeads(mapping, rows, i)
      invariant records' == Fresh(key, seen0, read)
      invariant |records'| <= limit
      invariant seen' == seen0 + KeySet(key, records')
      invariant added == |records'| - |records|
    {
      var record := mapping(rows[i]);
      PageLeadsStep(mapping, rows, i);
      if record.Some? {
        ScanStep(key, seen0, read, records', seen', record.value);
        var k := key(record.value);
        assert read + [record.value] == before + PageLeads(mapping, rows, i + 1);
        read := read + [record.value];
        if k !in seen' {
          seen' := seen' + {k};
          records' := records' + [record.value];
          added := added + 1;
        }
      } else {
        assert PageLeads(mapping, rows, i + 1) == PageLeads(mapping, rows, i) + [];
      }
      i := i + 1;
    }
    used := i;
  }

  /** An empty page adds no candidates. */
  lemma EmptyPage<P, L>(mapping: P -> Option<L>, search: nat -> Result<seq<P>>, pages: nat)
    requires PageRows(search, pages) == []
    ensures Candidates(mapping, search, pages + 1) == Candidates(mapping, search, pages)
  {
  }

  /**
   * After reading `used` results of the page at `start = 20 * pages`: what was read is a
   * prefix of the candidates one page further, complete unless the limit was reached,
   * and the kept leads grew exactly when the page added some.
   */
  lemma PageRead<P, L>(limit: nat, mapping: P -> Option<L>, key: L -> string, search: nat -> Result<seq<P>>,
                       seen0: set<string>, pages: nat, used: nat, kept: seq<L>, records: seq<L>)
    requires kept == Fresh(key, seen0, Candidates(mapping, search, pages))
    requires used <= |PageRows(search, pages)|
    requires records == Fresh(key, seen0, Candidates(mapping, search, pages) + PageLeads(mapping, PageRows(search, pages), used))
    requires used < |PageRows(search, pages)| ==> |records| == limit
    ensures var consumed := Candidates(mapping, search, pages) + PageLeads(mapping, PageRows(search, pages), used);
      && consumed <= Candidates(mapping, search, pages + 1)
      && (consumed != Candidates(mapping, search, pages + 1) ==> |records| == limit)
    ensures kept <= records && records <= Fresh(key, seen0, Candidates(mapping, search, pages + 1))
    ensures |records| == |kept| ==> records == kept && |kept| < limit ==> kept == Fresh(key, seen0, Candidates(mapping, search, pages + 1))
  {
    var rows := PageRows(search, pages);
    var cands := Candidates(mapping, search, pages);
    var consumed := cands + PageLeads(mapping, rows, used);
    var next := Candidates(mapping, search, pages + 1);
    assert next == cands + PageLeads(mapping, rows, |rows|);
    PageLeadsOfPrefix(mapping, rows, used, |rows|);
    FreshOfPrefix(key, seen0, consumed, next);
    FreshOfPrefix(key, seen0, cands, consumed);
  }

  /** What was kept from a prefix of the candidates, stopping early only at the limit, is the first `limit` kept from all. */
  lemma TakeOfKept<T>(key: T -> string, seen: set<string>, consumed: seq<T>, all: seq<T>, limit: nat)
    requires consumed <= all && |Fresh(key, seen, consumed)| <= limit
    requires consumed != all ==> |Fresh(key, seen, consumed)| == limit
    ensures Fresh(key, seen, consumed) == Take(Fresh(key, seen, all), limit)
  {
    FreshOfPrefix(key, seen, consumed, all);
  }

  /** The first `n` pages all answered. */
  ghost predicate Answered<P>(search: nat -> Result<seq<P>>, n: nat) {
    forall k :: 0 <= k < n ==> PageAt(search, k).Ok?
  }

  /** One more page that answered. */
  lemma AnsweredSnoc<P>(search: nat -> Result<seq<P>>, n: nat)
    requires Answered(search, n) && PageAt(search, n).Ok?
    ensures Answered(search, n + 1)
  {
  }

  /**
   * The `while len(records) < self.limit` loop of `fetch`: pages are requested at
   * `start = 0, 20, 40, ...` until `limit` leads are kept, a page comes back empty or a
   * page adds nothing. What is kept is the first `limit` of the reference `Fresh` over
   * the pages read, and every page but the last added something. A page whose request
   * raises (`raise_for_status`, a time-out) ends the loop with that error, and what was
   * kept so far is lost with it.
   */
  method FetchPages(limit: nat, mapping: Place -> Option<Lead>, key: Lead -> string,
                    search: nat -> Result<seq<Place>>, seen0: set<string>)
    returns (out: Result<seq<Lead>>, seen: set<string>, ghost pages: nat)
    requires limit >= 1
    ensures pages >= 1
    ensures Answered(search, pages - 1)
    ensures out.Err? <==> PageAt(search, pages - 1).Err?
    ensures out.Err? ==> out.message == PageAt(search, pages - 1).message
    ensures out.Ok? ==> out.value == Take(Fresh(key, seen0, Candidates(mapping, search, pages)), limit)
    ensures out.Ok? && |out.value| < limit ==>
      Fresh(key, seen0, Candidates(mapping, search, pages - 1)) == out.value
    ensures out.Ok? ==> forall k :: 1 <= k < pages ==>
      |Fresh(key, seen0, Candidates(mapping, search, k - 1))| < |Fresh(key, seen0, Candidates(mapping, search, k))|
    ensures out.Ok? ==> seen == seen0 + KeySet(key, out.value)
  {
    seen := seen0;
    var records := [];
    var start: nat := 0;
    pages := 0;
    ghost var consumed: seq<Lead> := [];
    while |records| < limit
      invariant start == PageSize * pages
      invariant Answered(search, pages)
      invariant records == Fresh(key, seen0, consumed) && consumed <= Candidates(mapping, search, pages)
      invariant consumed != Candidates(mapping, search, pages) ==> |records| == limit
      invariant |records| <= limit
      invariant seen == seen0 + KeySet(key, records)
      invariant forall k :: 1 <= k <= pages ==>
        |Fresh(key, seen0, Candidates(mapping, search, k - 1))| < |Fresh(key, seen0, Candidates(mapping, search, k))|
      decreases limit - |records|
    {
      var answer := search(start);
      assert answer == PageAt(search, pages);
      if answer.Err? {
        pages := pages + 1;
        out := Err(answer.message);
        return;
      }
      AnsweredSnoc(search, pages);
      var rows := answer.value;
      assert rows == PageRows(search, pages);
      ghost var cands := Candidates(mapping, search, pages);
      if rows == [] {
        EmptyPage(mapping, search, pages);
        pages := pages + 1;
        break;
      }
      var added: nat;
      ghost var used: nat;
      ghost var kept := records;
      records, seen, added, used := ScanPage(limit, mapping, key, rows, seen0, cands, records, seen);
      consumed := cands + PageLeads(mapping, rows, used);
      PageRead(limit, mapping, key, search, seen0, pages, used, kept, records);
      pages := pages + 1;
      if added == 0 {
        break;
      }
      start := start + PageSize;
    }
    TakeOfKept(key, seen0, consumed, Candidates(mapping, search, pages), limit);
    out := Ok(records);
  }

  /**
   * `GoogleMapsIngest.fetch`: the seen ids are loaded, the pages are read as above with
   * `_map_result_to_record` and the dedupe key, and the seen-ids file is rewritten with
   * the old ids and the new keys. The leads keep page order, have distinct keys and none
   * was seen in an earlier run (`FreshInOrder`, `FreshDistinct`). A page that raises
   * escapes `fetch`: no leads are returned and the seen-ids file is left as it was.
   */
  method Fetch(g: Ingest, search: nat -> Result<seq<Place>>, stored: Option<seq<string>>)
    returns (out: Result<seq<Lead>>, written: Option<seq<string>>, ghost pages: nat)
    requires g.limit >= 1
    ensures pages >= 1
    ensures Answered(search, pages - 1)
    ensures out.Err? <==> PageAt(search, pages - 1).Err?
    ensures out.Err? ==> out.message == PageAt(search, pages - 1).message
    ensures out.Ok? ==>
      out.value == Take(Fresh(DedupeKey, LoadSeenIds(g, stored), Candidates(Mapper(g), search, pages)), g.limit)
    ensures out.Ok? && |out.value| < g.limit ==>
      Fresh(DedupeKey, LoadSeenIds(g, stored), Candidates(Mapper(g), search, pages - 1)) == out.value
    ensures out.Ok? ==> forall k :: 1 <= k < pages ==>
      |Fresh(DedupeKey, LoadSeenIds(g, stored), Candidates(Mapper(g), search, k - 1))|
      < |Fresh(DedupeKey, LoadSeenIds(g, stored), Candidates(Mapper(g), search, k))|
    ensures written.None? <==> out.Err? || !g.dedupeAcrossRuns
    ensures out.Ok? && written.Some? ==>
      forall x :: x in written.value <==> x in LoadSeenIds(g, stored) || x in KeySet(DedupeKey, out.value)
  {
    var seen := LoadSeenIds(g, stored);
    out, seen, pages := FetchPages(g.limit, Mapper(g), DedupeKey, search, seen);
    if out.Err? {
      written := None;
      return;
    }
    written := SaveSeenIds(g, seen);
  }
}
