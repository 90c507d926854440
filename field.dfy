/**
 * The field page: the create/update submit with its validation and status
 * handling, the search box, the report filter by location and its options,
 * the size-distribution, location and comparison reports, the chart colour
 * palette and the summary figures.
 */
module Fields {
  import opened TextOps
  import opened ListOps
  import opened Tally
  import opened Http

  const Api := "http://localhost:8080/api/v1/field"

  /**
   * A field as the list endpoint returns it. The extent size may be absent;
   * an absent log code or image is the empty string.
   */
  datatype Field = Field(
    fieldCode: string, fieldName: string, fieldLocation: string, extentSize: Option<real>,
    logCode: string, fieldImageOne: string, fieldImageTwo: string)

  /** `field.extent_size || 0`. */
  function Size(f: Field): real {
    if f.extentSize.Some? then f.extentSize.value else 0.0
  }

  function SizeKey(): Field -> real {
    (f: Field) => Size(f)
  }

  // ---------------------------------------------------------------- submit

  /** The field form: five text inputs (the size as typed) and the two optional images. */
  datatype FieldForm = FieldForm(
    fieldCode: string, fieldName: string, fieldLocation: string, extentSize: string, logCode: string,
    imageOne: Option<string>, imageTwo: Option<string>)

  function Required(f: FieldForm): (r: seq<string>)
    ensures |r| == 5
  {
    [f.fieldCode, f.fieldName, f.fieldLocation, f.extentSize, f.logCode]
  }

  /** The multipart body: the five values, then each image that was chosen. */
  function Body(f: FieldForm): FormData {
    [("fieldCode", Text(f.fieldCode)), ("fieldName", Text(f.fieldName)), ("fieldLocation", Text(f.fieldLocation)),
     ("extent_size", Text(f.extentSize)), ("logCode", Text(f.logCode))]
    + (if f.imageOne.Some? then [("fieldImageOne", File(f.imageOne.value))] else [])
    + (if f.imageTwo.Some? then [("fieldImageTwo", File(f.imageTwo.value))] else [])
  }

  /** Both images are optional: five parts always, and one more per chosen image, each at most once. */
  lemma BodyParts(f: FieldForm)
    ensures |Body(f)| == 5 + (if f.imageOne.Some? then 1 else 0) + (if f.imageTwo.Some? then 1 else 0)
    ensures PartCount(Body(f), "fieldImageOne") == if f.imageOne.Some? then 1 else 0
    ensures PartCount(Body(f), "fieldImageTwo") == if f.imageTwo.Some? then 1 else 0
  {
    var texts := Body(f)[..5];
    var one: FormData := if f.imageOne.Some? then [("fieldImageOne", File(f.imageOne.value))] else [];
    var two: FormData := if f.imageTwo.Some? then [("fieldImageTwo", File(f.imageTwo.value))] else [];
    assert Body(f) == texts + one + two;
    PartCountAppend(texts + one, two, "fieldImageOne");
    PartCountAppend(texts, one, "fieldImageOne");
    PartCountAppend(texts + one, two, "fieldImageTwo");
    PartCountAppend(texts, one, "fieldImageTwo");
    assert PartCount(texts, "fieldImageOne") == 0 && PartCount(texts, "fieldImageTwo") == 0 by {
      assert PartCount(texts[4..], "fieldImageOne") == 0 && PartCount(texts[4..], "fieldImageTwo") == 0;
      assert PartCount(texts[3..], "fieldImageOne") == 0 && PartCount(texts[3..], "fieldImageTwo") == 0;
      assert PartCount(texts[2..], "fieldImageOne") == 0 && PartCount(texts[2..], "fieldImageTwo") == 0;
      assert PartCount(texts[1..], "fieldImageOne") == 0 && PartCount(texts[1..], "fieldImageTwo") == 0;
    }
  }

  /** What `saveField` does before the response: refuse the form, or send the body. */
  datatype SaveOutcome = Invalid(notice: Notice) | Send(request: Request<FormData>)

  /**
   * The alert after `fetch` settles: 201 and 204 are a success worded by the
   * mode; any other status, and a failed `fetch`, is a failure to save.
   */
  function SaveNotice(isEditMode: bool, response: Response): (n: Notice)
    ensures n.Success? <==> response.Status? && (response.code == 201 || response.code == 204)
    ensures n.Success? ==> n.text == if isEditMode then "Field updated successfully!" else "Field added successfully!"
    ensures response.Status? && !n.Success? ==>
              n == Error("Failed to save field: " + "Server returned status: " + IntToString(response.code))
    ensures response.NetworkError? ==> n == Error("Failed to save field: " + response.message)
  {
    match response
    case NetworkError(message) => Error("Failed to save field: " + message)
    case Status(code, _) =>
      if code == 201 || code == 204 then
        Success(if isEditMode then "Field updated successfully!" else "Field added successfully!")
      else Error("Failed to save field: " + "Server returned status: " + IntToString(code))
  }

  /** A 200 OK is a failure to save. */
  lemma OkIsNotSaved(isEditMode: bool)
    ensures SaveNotice(isEditMode, Status(200, "")).Error?
  {
  }

  // ---------------------------------------------------------------- search

  /** The test `filterFields` applies with the lower-cased term: code, name, location, or a present log code. */
  predicate FieldMatches(f: Field, searchTerm: string) {
    Contains(Lower(f.fieldCode), searchTerm) || Contains(Lower(f.fieldName), searchTerm)
    || Contains(Lower(f.fieldLocation), searchTerm) || (f.logCode != "" && Contains(Lower(f.logCode), searchTerm))
  }

  function SearchTest(searchTerm: string): Field -> bool {
    (f: Field) => FieldMatches(f, searchTerm)
  }

  /** The list `filterFields` renders for the box's text. */
  function Searched(fields: seq<Field>, input: string): seq<Field> {
    if Lower(input) == "" then fields else Filter(fields, SearchTest(Lower(input)))
  }

  /**
   * An empty box shows every field; otherwise the search keeps, in their
   * original order, exactly the fields that match, each as often as it
   * occurs.
   */
  lemma SearchedKeepsExactlyMatches(fields: seq<Field>, input: string, f: Field)
    ensures input == "" ==> Searched(fields, input) == fields
    ensures IsSubsequence(Searched(fields, input), fields)
    ensures input != "" ==> (f in Searched(fields, input) <==> f in fields && FieldMatches(f, Lower(input)))
    ensures input != "" ==>
              multiset(Searched(fields, input))[f] == if FieldMatches(f, Lower(input)) then multiset(fields)[f] else 0
  {
    var p := SearchTest(Lower(input));
    if Lower(input) == "" {
      IsSubsequenceRefl(fields);
    } else {
      FilterIsSubsequence(fields, p);
      FilterMembers(fields, p, f);
      FilterMultiplicity(fields, p, f);
    }
  }

  lemma {:induction false} IsSubsequenceRefl(xs: seq<Field>)
    ensures IsSubsequence(xs, xs)
  {
    if xs != [] {
      IsSubsequenceRefl(xs[1..]);
    }
  }

  // ---------------------------------------------------------------- report filter

  function LocationTest(location: string): Field -> bool {
    (f: Field) => f.fieldLocation == location
  }

  /** `getFilteredFields`: a copy of every field for `all`, else the fields at that location. */
  function ByLocation(fields: seq<Field>, locationFilter: string): seq<Field> {
    if locationFilter == "all" then fields else Filter(fields, LocationTest(locationFilter))
  }

  /**
   * The report filter keeps every field for `all`, and otherwise exactly
   * the fields at the chosen location, in their order and multiplicity.
   */
  lemma ByLocationKeepsExactly(fields: seq<Field>, locationFilter: string, f: Field)
    ensures locationFilter == "all" ==> ByLocation(fields, locationFilter) == fields
    ensures locationFilter != "all" ==>
              (f in ByLocation(fields, locationFilter) <==> f in fields && f.fieldLocation == locationFilter)
    ensures locationFilter != "all" ==>
              multiset(ByLocation(fields, locationFilter))[f] == if f.fieldLocation == locationFilter then multiset(fields)[f] else 0
    ensures locationFilter != "all" ==> IsSubsequence(ByLocation(fields, locationFilter), fields)
  {
    var p := LocationTest(locationFilter);
    FilterMembers(fields, p, f);
    FilterMultiplicity(fields, p, f);
    FilterIsSubsequence(fields, p);
  }

  /** `fields.map(field => field.fieldLocation)`. */
  function Locations(fields: seq<Field>): (r: seq<string>)
    ensures |r| == |fields|
    ensures forall i :: 0 <= i < |fields| ==> r[i] == fields[i].fieldLocation
  {
    if fields == [] then [] else [fields[0].fieldLocation] + Locations(fields[1..])
  }

  /**
   * `populateLocationFilter`: the options after "All Locations" are the
   * distinct locations, each exactly once and in first-occurrence order.
   */
  function LocationOptions(fields: seq<Field>): (options: seq<string>)
    ensures options == Distinct(Locations(fields))
    ensures NoDuplicates(options)
    ensures forall l :: l in options <==> exists i :: 0 <= i < |fields| && fields[i].fieldLocation == l
  {
    DistinctNoDuplicates(Locations(fields));
    DistinctLocations(fields);
    Distinct(Locations(fields))
  }

  lemma DistinctLocations(fields: seq<Field>)
    ensures forall l :: l in Distinct(Locations(fields)) <==> l in Locations(fields)
  {
    forall l ensures l in Distinct(Locations(fields)) <==> l in Locations(fields) {
      DistinctMembers(Locations(fields), l);
    }
  }

  // ---------------------------------------------------------------- size distribution

  const SizeLabels := ["Small (<5 acres)", "Medium (5-20 acres)", "Large (20-50 acres)", "Very Large (>50 acres)"]

  /** The size category of a size, as the chain of comparisons in the area report picks it. */
  function Bucket(size: real): (k: nat)
    ensures k < 4
  {
    if size < 5.0 then 0
    else if size >= 5.0 && size < 20.0 then 1
    else if size >= 20.0 && size < 50.0 then 2
    else 3
  }

  /** The category boundaries are 5, 20 and 50 acres, each bound belonging to the larger category. */
  lemma BucketBounds(size: real)
    ensures Bucket(size) == 0 <==> size < 5.0
    ensures Bucket(size) == 1 <==> 5.0 <= size < 20.0
    ensures Bucket(size) == 2 <==> 20.0 <= size < 50.0
    ensures Bucket(size) == 3 <==> 50.0 <= size
  {
  }

  function InBucket(k: nat): Field -> bool {
    (f: Field) => Bucket(Size(f)) == k
  }

  /** The four counts of `sizeCategories`, in label order. */
  function BucketCounts(fields: seq<Field>): (r: seq<nat>)
    ensures |r| == 4
  {
    [CountIf(fields, InBucket(0)), CountIf(fields, InBucket(1)), CountIf(fields, InBucket(2)), CountIf(fields, InBucket(3))]
  }

  /** Every field falls in exactly one category, so the four counts add up to the number of fields. */
  lemma {:induction false} BucketsPartition(fields: seq<Field>)
    ensures BucketCounts(fields)[0] + BucketCounts(fields)[1] + BucketCounts(fields)[2] + BucketCounts(fields)[3] == |fields|
  {
    if fields != [] {
      BucketsPartition(fields[1..]);
      var k := Bucket(Size(fields[0]));
      assert forall j :: 0 <= j < 4 ==>
        CountIf(fields, InBucket(j)) == (if j == k then 1 else 0) + CountIf(fields[1..], InBucket(j));
    }
  }

  /** The counting loop of `generateAreaReport`. */
  method AreaCategories(filteredFields: seq<Field>) returns (sizeCategories: seq<nat>)
    ensures sizeCategories == BucketCounts(filteredFields)
  {
    sizeCategories := [0, 0, 0, 0];
    var i := 0;
    while i < |filteredFields|
      invariant 0 <= i <= |filteredFields|
      invariant sizeCategories == BucketCounts(filteredFields[..i])
    {
      var field := filteredFields[i];
      BucketsSnoc(filteredFields[..i], field);
      assert filteredFields[..i + 1] == filteredFields[..i] + [field];
      var size := Size(field);
      if size < 5.0 {
        sizeCategories := sizeCategories[0 := sizeCategories[0] + 1];
      } else if size >= 5.0 && size < 20.0 {
        sizeCategories := sizeCategories[1 := sizeCategories[1] + 1];
      } else if size >= 20.0 && size < 50.0 {
        sizeCategories := sizeCategories[2 := sizeCategories[2] + 1];
      } else {
        sizeCategories := sizeCategories[3 := sizeCategories[3] + 1];
      }
      i := i + 1;
    }
    assert filteredFields[..i] == filteredFields;
  }

  lemma BucketsSnoc(fields: seq<Field>, f: Field)
    ensures BucketCounts(fields + [f]) == BucketCounts(fields)[Bucket(Size(f)) := BucketCounts(fields)[Bucket(Size(f))] + 1]
  {
    CountIfSnoc(fields, f, InBucket(0));
    CountIfSnoc(fields, f, InBucket(1));
    CountIfSnoc(fields, f, InBucket(2));
    CountIfSnoc(fields, f, InBucket(3));
  }

  /** The insights of the area report. */
  datatype AreaInsight = AreaInsight(categoriesUsed: nat, largestCategory: string, largestCount: nat)

  function SizeTable(counts: seq<nat>): (t: CountTable)
    requires |counts| == 4
    ensures |t| == 4 && forall k :: 0 <= k < 4 ==> t[k] == (SizeLabels[k], counts[k])
  {
    [(SizeLabels[0], counts[0]), (SizeLabels[1], counts[1]), (SizeLabels[2], counts[2]), (SizeLabels[3], counts[3])]
  }

  function UsedTest(): ((string, nat)) -> bool {
    (e: (string, nat)) => e.1 > 0
  }

  /**
   * The area insights: how many categories hold a field, and the category
   * `reduce((a, b) => c[a] > c[b] ? a : b)` picks, which holds the most
   * fields, the later one on a tie.
   */
  function AreaInsights(counts: seq<nat>): (r: AreaInsight)
    requires |counts| == 4
    ensures r.categoriesUsed <= 4
    ensures exists k :: 0 <= k < 4 && r.largestCategory == SizeLabels[k] && r.largestCount == counts[k]
                        && (forall j :: 0 <= j < 4 ==> counts[j] <= counts[k])
                        && (forall j :: k < j < 4 ==> counts[j] < counts[k])
  {
    var t := SizeTable(counts);
    var k := ReduceMaxIndex(t);
    AreaInsight(CountIf(t, UsedTest()), SizeLabels[k], counts[k])
  }

  /** With no fields no category is used and the "largest" category reported is the last one, with 0 fields. */
  lemma AreaInsightsOfNoFields()
    ensures AreaInsights(BucketCounts([])) == AreaInsight(0, SizeLabels[3], 0)
  {
    var t := SizeTable(BucketCounts([]));
    CountIfExtremes(t, UsedTest());
  }

  // ---------------------------------------------------------------- colours

  const BaseColors := ["#4caf50", "#2196f3", "#ff9800", "#f44336", "#9c27b0",
                       "#673ab7", "#3f51b5", "#00bcd4", "#009688", "#cddc39"]

  /** `generateColors(count)`: one colour per bar, cycling through the ten base colours. */
  method GenerateColors(count: nat) returns (colors: seq<string>)
    ensures |colors| == count
    ensures forall i :: 0 <= i < count ==> colors[i] == BaseColors[i % |BaseColors|]
  {
    colors := [];
    var i := 0;
    while i < count
      invariant 0 <= i <= count && |colors| == i
      invariant forall j :: 0 <= j < i ==> colors[j] == BaseColors[j % |BaseColors|]
    {
      colors := colors + [BaseColors[i % |BaseColors|]];
      i := i + 1;
    }
  }

  /** The palette repeats every ten bars, and ten consecutive bars never share a colour. */
  lemma ColorsCycle(colors: seq<string>, i: nat, j: nat)
    requires forall k :: 0 <= k < |colors| ==> colors[k] == BaseColors[k % |BaseColors|]
    requires i < j < |colors|
    ensures j == i + 10 ==> colors[i] == colors[j]
    ensures j < i + 10 ==> colors[i] != colors[j]
  {
    if j == i + 10 {
      assert j % 10 == i % 10;
    }
    if j < i + 10 {
      assert i % 10 != j % 10;
    }
  }

  // ---------------------------------------------------------------- location and comparison reports

  /** A report as it runs: drawn, or stopped by an exception with its message. */
  datatype Drawn<T> = Rendered(value: T) | Thrown(message: string)

  /** What the location report shows besides its chart: the location with the most fields and their number. */
  datatype LocationInsight = LocationInsight(mostFieldsLocation: string, count: nat)

  /**
   * The location insight as written: `labels.reduce` without an initial
   * value throws on an empty list of locations; otherwise it picks a
   * location with the most fields, the later one on a tie.
   */
  function LocationInsightAsWritten(locationCounts: CountTable): (r: Drawn<LocationInsight>)
    ensures r.Thrown? <==> locationCounts == []
    ensures r.Rendered? ==> exists i :: 0 <= i < |locationCounts| && locationCounts[i] == (r.value.mostFieldsLocation, r.value.count)
                                        && forall j :: 0 <= j < |locationCounts| ==> locationCounts[j].1 <= r.value.count
  {
    if locationCounts == [] then Thrown("Reduce of empty array with no initial value")
    else
      var i := ReduceMaxIndex(locationCounts);
      Rendered(LocationInsight(locationCounts[i].0, locationCounts[i].1))
  }

  /** The location report with a guarded insight: nothing to name when there are no fields. */
  function LocationInsightGuarded(locationCounts: CountTable): (r: Drawn<Option<LocationInsight>>)
    ensures r.Rendered?
    ensures r.value.None? <==> locationCounts == []
    ensures r.value.Some? ==> exists i :: 0 <= i < |locationCounts| && locationCounts[i] == (r.value.value.mostFieldsLocation, r.value.value.count)
                                         && forall j :: 0 <= j < |locationCounts| ==> locationCounts[j].1 <= r.value.value.count
  {
    if locationCounts == [] then Rendered(None)
    else
      var i := ReduceMaxIndex(locationCounts);
      Rendered(Some(LocationInsight(locationCounts[i].0, locationCounts[i].1)))
  }

  /**
   * The counting loop of `generateLocationReport` and its colours: one entry
   * per distinct location in first-occurrence order with its number of
   * fields, one colour per entry.
   */
  method LocationReport(filteredFields: seq<Field>) returns (locationCounts: CountTable, colors: seq<string>)
    ensures locationCounts == Tally.Tally(Locations(filteredFields))
    ensures KeysOf(locationCounts) == LocationOptions(filteredFields)
    ensures forall i :: 0 <= i < |locationCounts| ==> locationCounts[i].1 == Occurrences(Locations(filteredFields), locationCounts[i].0)
    ensures Total(locationCounts) == |filteredFields|
    ensures |colors| == |locationCounts|
  {
    locationCounts := CountByKey(Locations(filteredFields));
    colors := GenerateColors(|KeysOf(locationCounts)|);
  }

  /** With no fields the location table is empty, so the insight as written throws. */
  lemma NoFieldsLocationThrows()
    ensures LocationInsightAsWritten(Tally.Tally(Locations([]))).Thrown?
  {
  }

  /** The comparison report's figures: the top fields by size, their sizes, the largest of them and their average size. */
  datatype Comparison = Comparison(top: seq<Field>, sizes: seq<real>, largest: Option<Field>, avgSize: real)

  function Sizes(fields: seq<Field>): (r: seq<real>)
    ensures |r| == |fields|
    ensures forall i :: 0 <= i < |fields| ==> r[i] == Size(fields[i])
  {
    if fields == [] then [] else [Size(fields[0])] + Sizes(fields[1..])
  }

  /** `[...fields].sort((a, b) => size(b) - size(a)).slice(0, 5)`, the sort being stable. */
  function TopFive(fields: seq<Field>): seq<Field> {
    Take(SortDesc(fields, SizeKey()), 5)
  }

  /**
   * The comparison report as written: `sortedFields[0].fieldName` throws a
   * TypeError when there are no fields.
   */
  function ComparisonAsWritten(fields: seq<Field>): (r: Drawn<Comparison>)
    ensures r.Thrown? <==> fields == []
  {
    var sortedFields := TopFive(fields);
    if sortedFields == [] then Thrown("Cannot read properties of undefined (reading 'fieldName')")
    else Rendered(Comparison(sortedFields, Sizes(sortedFields), Some(sortedFields[0]),
                             TotalArea(sortedFields) / |sortedFields| as real))
  }

  /** The comparison report with the largest field and the average guarded: none to name, and 0, for no fields. */
  function ComparisonGuarded(fields: seq<Field>): (r: Drawn<Comparison>)
    ensures r.Rendered?
    ensures r.value.largest.None? <==> fields == []
    ensures r.value.top != [] ==> r.value.avgSize * (|r.value.top| as real) == TotalArea(r.value.top)
    ensures r.value.top == [] ==> r.value.avgSize == 0.0
  {
    var sortedFields := TopFive(fields);
    if sortedFields == [] then Rendered(Comparison([], [], None, 0.0))
    else Rendered(Comparison(sortedFields, Sizes(sortedFields), Some(sortedFields[0]),
                             TotalArea(sortedFields) / |sortedFields| as real))
  }

  /**
   * The comparison takes at most five fields, all of them from the list,
   * ordered from the largest size down, and no field left out is larger
   * than any field taken; the largest named is a largest field of all.
   */
  lemma ComparisonTakesLargest(fields: seq<Field>)
    ensures var c := ComparisonGuarded(fields).value;
            |c.top| == (if |fields| < 5 then |fields| else 5)
            && multiset(c.top) <= multiset(fields)
            && SortedDesc(c.top, SizeKey())
            && (c.largest.Some? ==> forall i :: 0 <= i < |fields| ==> Size(fields[i]) <= Size(c.largest.value))
  {
    var sorted := SortDesc(fields, SizeKey());
    SortDescFacts(fields, SizeKey());
    PrefixOfSorted(sorted, Take(sorted, 5));
    if fields != [] {
      HeadIsLargest(fields, sorted);
    }
  }

  /** A prefix of a descending sort is itself descending and takes nothing twice. */
  lemma PrefixOfSorted(sorted: seq<Field>, top: seq<Field>)
    requires SortedDesc(sorted, SizeKey()) && top <= sorted
    ensures SortedDesc(top, SizeKey()) && multiset(top) <= multiset(sorted)
  {
    assert sorted == top + sorted[|top|..];
    assert multiset(sorted) == multiset(top) + multiset(sorted[|top|..]);
    forall i, j | 0 <= i < j < |top| ensures SizeKey()(top[i]) >= SizeKey()(top[j]) {
      assert top[i] == sorted[i] && top[j] == sorted[j];
    }
  }

  /** The first of a descending sort of the fields is at least as large as each of them. */
  lemma HeadIsLargest(fields: seq<Field>, sorted: seq<Field>)
    requires fields != [] && SortedDesc(sorted, SizeKey()) && multiset(sorted) == multiset(fields)
    ensures forall i :: 0 <= i < |fields| ==> Size(fields[i]) <= Size(sorted[0])
  {
    forall i | 0 <= i < |fields| ensures Size(fields[i]) <= Size(sorted[0]) {
      assert fields[i] in multiset(sorted);
      var k :| 0 <= k < |sorted| && sorted[k] == fields[i];
      if k > 0 {
        assert SizeKey()(sorted[0]) >= SizeKey()(sorted[k]);
      }
    }
  }

  /** No field left out of the comparison is larger than a field in it. */
  lemma ComparisonOmitsSmaller(fields: seq<Field>)
    ensures var sorted := SortDesc(fields, SizeKey());
            forall i, j :: 0 <= i < |TopFive(fields)| && |TopFive(fields)| <= j < |sorted| ==>
              Size(TopFive(fields)[i]) >= Size(sorted[j])
  {
    var sorted := SortDesc(fields, SizeKey());
    SortDescFacts(fields, SizeKey());
    TopOfSortedDesc(sorted, SizeKey(), 5);
  }

  /** With no fields, the comparison as written throws. */
  lemma NoFieldsComparisonThrows()
    ensures ComparisonAsWritten([]).Thrown?
  {
  }

  /**
   * The reports `loadData` draws after loading, as written: the area report
   * always draws, then the location report throws on an empty list, and the
   * exception reaches `loadData`'s handler, which reports a failure to load.
   */
  function LoadDataNoticeAsWritten(filteredFields: seq<Field>): Notice {
    var location := LocationInsightAsWritten(Tally.Tally(Locations(filteredFields)));
    if location.Thrown? then Error("Failed to load data: " + location.message)
    else if ComparisonAsWritten(filteredFields).Thrown? then Error("Failed to load data: " + ComparisonAsWritten(filteredFields).message)
    else Success("Data loaded successfully")
  }

  /** A successful load of no fields is reported as a failure to load. */
  lemma EmptyLoadReportsFailure()
    ensures LoadDataNoticeAsWritten([]).Error?
  {
  }

  // ---------------------------------------------------------------- summary

  function TotalArea(fields: seq<Field>): real {
    if fields == [] then 0.0 else Size(fields[0]) + TotalArea(fields[1..])
  }

  /** The summary cards over the filtered fields, sizes summed exactly. */
  datatype Summary = Summary(totalFields: nat, totalArea: real, uniqueLocations: nat, avgSize: real)

  /**
   * `updateSummaryStats`: the average size is 0 for no fields and otherwise
   * the total area shared equally; the distinct locations never outnumber
   * the fields.
   */
  function SummaryStats(filteredFields: seq<Field>): (s: Summary)
    ensures s.totalFields == |filteredFields|
    ensures s.totalArea == TotalArea(filteredFields)
    ensures s.uniqueLocations == |LocationOptions(filteredFields)|
    ensures s.totalFields == 0 ==> s.avgSize == 0.0
    ensures s.totalFields > 0 ==> s.avgSize * (s.totalFields as real) == s.totalArea
    ensures s.uniqueLocations <= s.totalFields
    ensures s.uniqueLocations == 0 <==> s.totalFields == 0
  {
    var totalFields := |filteredFields|;
    var totalArea := TotalArea(filteredFields);
    var locations := LocationOptions(filteredFields);
    DistinctLengthBound(Locations(filteredFields));
    assert filteredFields != [] ==> filteredFields[0].fieldLocation in locations;
    Summary(totalFields, totalArea, |locations|, if totalFields > 0 then totalArea / totalFields as real else 0.0)
  }

  lemma {:induction false} DistinctLengthBound(xs: seq<string>)
    ensures |Distinct(xs)| <= |xs|
  {
    if xs != [] {
      DistinctLengthBound(xs[..|xs| - 1]);
    }
  }

  // ---------------------------------------------------------------- the page

  /** The page state `saveField`, `editField` and `filterFields` share. */
  class FieldPage {
    var fieldsData: seq<Field>
    var currentFieldCode: string
    var isEditMode: bool
    var rendered: seq<Field>

    constructor ()
      ensures fieldsData == [] && currentFieldCode == "" && !isEditMode && rendered == []
    {
      fieldsData := [];
      currentFieldCode := "";
      isEditMode := false;
      rendered := [];
    }

    /** `openAddModal`: leave edit mode and forget the field being edited. */
    method OpenAddModal()
      modifies this`isEditMode, this`currentFieldCode
      ensures !isEditMode && currentFieldCode == ""
    {
      isEditMode := false;
      currentFieldCode := "";
    }

    /** `editField`: once the field is fetched, enter edit mode for its code; a failed fetch changes nothing. */
    method EditField(fieldCode: string, response: Response) returns (notice: Option<Notice>)
      modifies this`isEditMode, this`currentFieldCode
      ensures response.Status? && Ok(response.code) ==> isEditMode && currentFieldCode == fieldCode && notice == None
      ensures !(response.Status? && Ok(response.code)) ==>
                isEditMode == old(isEditMode) && currentFieldCode == old(currentFieldCode) && notice.Some? && notice.value.Error?
    {
      if !(response.Status? && Ok(response.code)) {
        var message := if response.Status? then "Failed to fetch field for edit" else response.message;
        notice := Some(Error("Failed to load field for editing: " + message));
        return;
      }
      isEditMode := true;
      currentFieldCode := fieldCode;
      notice := None;
    }

    /** `loadFields`: an ok response replaces and renders the fields; otherwise nothing changes. */
    method LoadFields(response: Response, fields: seq<Field>) returns (loaded: bool)
      modifies this`fieldsData, this`rendered
      ensures loaded <==> response.Status? && Ok(response.code)
      ensures loaded ==> fieldsData == fields && rendered == fields
      ensures !loaded ==> fieldsData == old(fieldsData) && rendered == old(rendered)
    {
      loaded := response.Status? && Ok(response.code);
      if loaded {
        fieldsData := fields;
        rendered := fieldsData;
      }
    }

    /**
     * `saveField` up to the request: a form with any of the five values
     * empty is refused; otherwise edit mode PUTs to the field being edited
     * and add mode POSTs to the base URL, the images being optional either way.
     */
    method SaveField(form: FieldForm) returns (outcome: SaveOutcome)
      ensures outcome.Invalid? <==> "" in Required(form)
      ensures outcome.Invalid? ==> outcome.notice == Error("Please fill in all required fields")
      ensures outcome.Send? ==> outcome.request.body == Body(form)
      ensures outcome.Send? ==> outcome.request.verb == (if isEditMode then PUT else POST)
      ensures outcome.Send? ==> outcome.request.url == (if isEditMode then Api + "/" + currentFieldCode else Api)
    {
      if form.fieldCode == "" || form.fieldName == "" || form.fieldLocation == "" || form.extentSize == "" || form.logCode == "" {
        outcome := Invalid(Error("Please fill in all required fields"));
        return;
      }
      var formData: FormData := [];
      formData := formData + [("fieldCode", Text(form.fieldCode))];
      formData := formData + [("fieldName", Text(form.fieldName))];
      formData := formData + [("fieldLocation", Text(form.fieldLocation))];
      formData := formData + [("extent_size", Text(form.extentSize))];
      formData := formData + [("logCode", Text(form.logCode))];
      if form.imageOne.Some? {
        formData := formData + [("fieldImageOne", File(form.imageOne.value))];
      }
      if form.imageTwo.Some? {
        formData := formData + [("fieldImageTwo", File(form.imageTwo.value))];
      }
      var url := if isEditMode then Api + "/" + currentFieldCode else Api;
      var verb := if isEditMode then PUT else POST;
      outcome := Send(Request(verb, url, formData));
    }

    /** `filterFields`: render the search result; the loaded fields are not touched. */
    method FilterFields(input: string)
      modifies this`rendered
      ensures rendered == Searched(fieldsData, input)
    {
      var searchTerm := Lower(input);
      if searchTerm == "" {
        rendered := fieldsData;
        return;
      }
      rendered := Filter(fieldsData, SearchTest(searchTerm));
    }

    /** `getFilteredFields` for the chosen location. */
    method GetFilteredFields(locationFilter: string) returns (filteredFields: seq<Field>)
      ensures filteredFields == ByLocation(fieldsData, locationFilter)
    {
      filteredFields := fieldsData;
      if locationFilter != "all" {
        filteredFields := Filter(filteredFields, LocationTest(locationFilter));
      }
    }
  }
}
