/**
 * The equipment page: the status badge class, colour and icon, the
 * statistics cards, the create/update submit, the search box, CSV export of
 * the whole list, and the per-property counts behind the reports. The page
 * keeps the loaded list in `equipmentData`; it is modelled as a class whose
 * methods are the handlers that read or replace it.
 */
module Equipment {
  import opened TextOps
  import opened ListOps
  import opened Tally
  import opened Http
  import Vehicle
  import Rows

  const Api := "http://localhost:8080/api/v1/equipment"

  /** An equipment record; a missing or null value is the empty string (both are falsy). */
  datatype Equipment = Equipment(
    equipmentId: string, name: string, kind: string,
    status: string, staffId: string, fieldCode: string)

  /** The record's six values in form and column order. */
  function Values(e: Equipment): (r: seq<string>)
    ensures |r| == 6
  {
    [e.equipmentId, e.name, e.kind, e.status, e.staffId, e.fieldCode]
  }

  // ---------------------------------------------------------------- status presentation

  /** `getStatusClass`: the three known statuses map to their own class, anything else to inactive. */
  function StatusClass(status: string): (c: string)
    ensures c == "status-active" <==> status == "Active"
    ensures c == "status-maintenance" <==> status == "Maintenance"
    ensures c == "status-inactive" <==> status != "Active" && status != "Maintenance"
  {
    match status
    case "Active" => "status-active"
    case "Inactive" => "status-inactive"
    case "Maintenance" => "status-maintenance"
    case _ => "status-inactive"
  }

  /** `getStatusColor`: green, red and amber for the known statuses, grey for any other. */
  function StatusColor(status: string): (c: string)
    ensures c == "#28a745" <==> status == "Active"
    ensures c == "#dc3545" <==> status == "Inactive"
    ensures c == "#ffc107" <==> status == "Maintenance"
    ensures c == "#6c757d" <==> !IsKnownStatus(status)
  {
    match status
    case "Active" => "#28a745"
    case "Inactive" => "#dc3545"
    case "Maintenance" => "#ffc107"
    case _ => "#6c757d"
  }

  /** `getStatusIcon`: a tick, a cross and a wrench for the known statuses, a question mark for any other. */
  function StatusIcon(status: string): (c: string)
    ensures c == "fas fa-check-circle" <==> status == "Active"
    ensures c == "fas fa-times-circle" <==> status == "Inactive"
    ensures c == "fas fa-wrench" <==> status == "Maintenance"
    ensures c == "fas fa-question-circle" <==> !IsKnownStatus(status)
  {
    match status
    case "Active" => "fas fa-check-circle"
    case "Inactive" => "fas fa-times-circle"
    case "Maintenance" => "fas fa-wrench"
    case _ => "fas fa-question-circle"
  }

  predicate IsKnownStatus(status: string) {
    status == "Active" || status == "Inactive" || status == "Maintenance"
  }

  /**
   * The badge class of an equipment status is the one the vehicle page
   * gives the same status, although one is a `switch` and the other a pair
   * of assignments.
   */
  lemma SameBadgeAsVehicle(status: string)
    ensures StatusClass(status) == Vehicle.StatusClass(status)
  {
  }

  /**
   * Colour and icon tell the same story: a status gets the default colour
   * exactly when it gets the default icon, and a known one gets a colour and
   * an icon of its own, so two statuses share a colour exactly when they
   * share an icon.
   */
  lemma ColorAndIconAgree(s: string, t: string)
    ensures StatusColor(s) == "#6c757d" <==> StatusIcon(s) == "fas fa-question-circle"
    ensures StatusColor(s) == StatusColor(t) <==> StatusIcon(s) == StatusIcon(t)
  {
  }

  // ---------------------------------------------------------------- cards

  predicate IsActive(e: Equipment) { e.status == "Active" }
  predicate IsInMaintenance(e: Equipment) { e.status == "Maintenance" }

  datatype EquipmentStats = EquipmentStats(total: nat, active: nat, maintenance: nat)

  /** `updateStats`: the total and the exact-match counts of Active and Maintenance, which never exceed it. */
  function UpdateStats(data: seq<Equipment>): (s: EquipmentStats)
    ensures s.total == |data|
    ensures s.active == |Filter(data, IsActive)| && s.maintenance == |Filter(data, IsInMaintenance)|
    ensures s.active + s.maintenance <= s.total
  {
    DisjointCounts2(data, IsActive, IsInMaintenance);
    EquipmentStats(|data|, CountIf(data, IsActive), CountIf(data, IsInMaintenance))
  }

  // ---------------------------------------------------------------- submit

  /** What `saveEquipment` does: show the validation error, or send the record. */
  datatype SaveOutcome = Invalid(message: string) | Send(request: Request<Equipment>)

  const RequiredMessage := "Please fill in all required fields."

  /**
   * `saveEquipment`: every one of the six values is required. In edit mode
   * (the hidden flag is the string `'true'`) the record is PUT to the id
   * kept in the hidden field, otherwise it is POSTed to `/save`. The body is
   * the record as typed, not trimmed.
   */
  function SaveEquipment(formData: Equipment, editMode: string, editEquipmentId: string): (r: SaveOutcome)
    ensures r.Invalid? <==> "" in Values(formData)
    ensures r.Invalid? ==> r.message == RequiredMessage
    ensures r.Send? ==> r.request.body == formData
    ensures r.Send? ==> (r.request.verb == PUT <==> editMode == "true")
    ensures r.Send? ==> r.request.url == if editMode == "true" then Api + "/" + editEquipmentId else Api + "/save"
  {
    if formData.equipmentId == "" || formData.name == "" || formData.kind == ""
       || formData.status == "" || formData.staffId == "" || formData.fieldCode == "" then
      Invalid(RequiredMessage)
    else
      var isEditMode := editMode == "true";
      var url := if isEditMode then Api + "/" + editEquipmentId else Api + "/save";
      var verb := if isEditMode then PUT else POST;
      Send(Request(verb, url, formData))
  }

  /** The toast after the request: jQuery's `success` for a 2xx or 304, its `error` for anything else. */
  function SaveNotice(isEditMode: bool, response: Response): (n: Notice)
    ensures n.Success? <==> response.Status? && AjaxSucceeds(response.code)
    ensures n.Success? ==> n.text == if isEditMode then "Equipment updated successfully!" else "Equipment added successfully!"
    ensures n.Error? ==> n.text == if isEditMode then "Failed to update equipment. Please try again."
                                   else "Failed to add equipment. Please try again."
  {
    if response.Status? && AjaxSucceeds(response.code) then
      Success(if isEditMode then "Equipment updated successfully!" else "Equipment added successfully!")
    else
      Error(if isEditMode then "Failed to update equipment. Please try again." else "Failed to add equipment. Please try again.")
  }

  // ---------------------------------------------------------------- search

  /** One field of the search: present, and containing the term case-insensitively. */
  predicate FieldMatches(value: string, term: string) {
    value != "" && Contains(Lower(value), Lower(term))
  }

  /** The `filterEquipment` test: some present field contains the term. */
  predicate Matches(e: Equipment, term: string) {
    FieldMatches(e.equipmentId, term) || FieldMatches(e.name, term) || FieldMatches(e.kind, term)
    || FieldMatches(e.status, term) || FieldMatches(e.staffId, term) || FieldMatches(e.fieldCode, term)
  }

  /** `Matches` with the term fixed, as the callback handed to `filter`. */
  function MatchTest(term: string): Equipment -> bool {
    e => Matches(e, term)
  }

  /** The list `filterEquipment` renders: everything for an empty term, else the matching records. */
  function Filtered(data: seq<Equipment>, searchTerm: string): seq<Equipment> {
    if searchTerm == "" then data else Filter(data, MatchTest(searchTerm))
  }

  /**
   * The filter keeps, in their original order, exactly the records where
   * some present field contains the term, each as often as it occurs.
   */
  lemma FilteredKeepsExactlyMatches(data: seq<Equipment>, searchTerm: string, e: Equipment)
    requires searchTerm != ""
    ensures IsSubsequence(Filtered(data, searchTerm), data)
    ensures e in Filtered(data, searchTerm) <==> e in data && Matches(e, searchTerm)
    ensures multiset(Filtered(data, searchTerm))[e] == if Matches(e, searchTerm) then multiset(data)[e] else 0
  {
    var p := MatchTest(searchTerm);
    FilterIsSubsequence(data, p);
    FilterMembers(data, p, e);
    FilterMultiplicity(data, p, e);
  }

  /** A longer term never shows more: whatever matches `t + u` matches `t`. */
  lemma LongerTermNarrows(e: Equipment, t: string, u: string)
    requires Matches(e, t + u)
    ensures Matches(e, t)
  {
    forall v | FieldMatches(v, t + u) ensures FieldMatches(v, t) {
      FieldNarrows(v, t, u);
    }
  }

  lemma FieldNarrows(v: string, t: string, u: string)
    requires FieldMatches(v, t + u)
    ensures FieldMatches(v, t)
  {
    Rows.SearchNarrows(v, t, u);
  }

  // ---------------------------------------------------------------- export

  const Headers := ["Equipment ID", "Name", "Type", "Status", "Staff ID", "Field Code"]

  /** `headers.join(',')`. */
  const HeaderLine := Join(Headers, ",")

  /** A field wrapped in double quotes, with nothing escaped. */
  function Quote(field: string): string {
    "\"" + field + "\""
  }

  function QuoteEach(fields: seq<string>): (r: seq<string>)
    ensures |r| == |fields|
    ensures forall i :: 0 <= i < |fields| ==> r[i] == Quote(fields[i])
  {
    if fields == [] then [] else [Quote(fields[0])] + QuoteEach(fields[1..])
  }

  /** One exported line: the six fields, a missing one as `""`, quoted and joined by commas. */
  function CsvRow(e: Equipment): string {
    Join(QuoteEach(Values(e)), ",")
  }

  function CsvRows(data: seq<Equipment>): (ls: seq<string>)
    ensures |ls| == |data|
  {
    if data == [] then [] else CsvRows(data[..|data| - 1]) + [CsvRow(data[|data| - 1])]
  }

  /**
   * Reading the export back: with no line feed in any value, the file
   * splits into the header and one line per record; with no comma or
   * quote in a record's values, its line splits into six quoted cells whose
   * insides are the values.
   */
  lemma CsvReadsBack(header: string, data: seq<Equipment>)
    requires '\n' !in header
    requires forall i, k :: 0 <= i < |data| && 0 <= k < 6 ==> '\n' !in Values(data[i])[k]
    ensures Split(Lines([header] + CsvRows(data)), '\n') == [header] + CsvRows(data) + [""]
  {
    RowsHaveNoLineFeed(data);
    ConsNoLineFeed(header, CsvRows(data));
    SplitLines([header] + CsvRows(data));
  }

  lemma ConsNoLineFeed(header: string, rows: seq<string>)
    requires '\n' !in header
    requires forall i :: 0 <= i < |rows| ==> '\n' !in rows[i]
    ensures forall k :: 0 <= k < |[header] + rows| ==> '\n' !in ([header] + rows)[k]
  {
    var ls := [header] + rows;
    forall k | 0 <= k < |ls| ensures '\n' !in ls[k] {
      if k > 0 {
        assert ls[k] == rows[k - 1];
      }
    }
  }

  /** The `forEach` of the export: one quoted, comma-joined line per record appended, each with a line feed. */
  method AppendRows(csv: string, csvData: seq<Equipment>) returns (csvContent: string)
    ensures csvContent == csv + Lines(CsvRows(csvData))
  {
    csvContent := csv;
    var i := 0;
    while i < |csvData|
      invariant 0 <= i <= |csvData|
      invariant csvContent == csv + Lines(CsvRows(csvData[..i]))
    {
      var row := csvData[i];
      LinesSnoc(CsvRows(csvData[..i]), CsvRow(row));
      assert csvData[..i + 1][..i] == csvData[..i];
      csvContent := csvContent + CsvRow(row) + "\n";
      i := i + 1;
    }
    assert csvData[..i] == csvData;
  }

  lemma LinesCons(h: string, rows: seq<string>)
    ensures Lines([h] + rows) == h + "\n" + Lines(rows)
  {
    assert ([h] + rows)[1..] == rows;
  }

  lemma HeaderHasNoLineFeed()
    ensures '\n' !in HeaderLine
  {
    assert forall k :: 0 <= k < |Headers| ==> '\n' !in Headers[k];
    JoinFree(Headers, ",", '\n');
  }

  lemma {:induction false} RowsHaveNoLineFeed(data: seq<Equipment>)
    requires forall i, k :: 0 <= i < |data| && 0 <= k < 6 ==> '\n' !in Values(data[i])[k]
    ensures forall i :: 0 <= i < |data| ==> '\n' !in CsvRows(data)[i]
  {
    if data != [] {
      var init := data[..|data| - 1];
      assert forall i, k :: 0 <= i < |init| && 0 <= k < 6 ==> '\n' !in Values(init[i])[k] by {
        forall i, k | 0 <= i < |init| && 0 <= k < 6 ensures '\n' !in Values(init[i])[k] {
          assert init[i] == data[i];
        }
      }
      RowsHaveNoLineFeed(init);
      RowHasNoLineFeed(data[|data| - 1]);
    }
  }

  lemma RowHasNoLineFeed(e: Equipment)
    requires forall k :: 0 <= k < 6 ==> '\n' !in Values(e)[k]
    ensures '\n' !in CsvRow(e)
  {
    var cells := QuoteEach(Values(e));
    forall m | 0 <= m < |cells| ensures '\n' !in cells[m] {
      assert cells[m] == "\"" + Values(e)[m] + "\"";
    }
    JoinFree(cells, ",", '\n');
  }

  lemma RowReadsBack(e: Equipment)
    requires forall k :: 0 <= k < 6 ==> ',' !in Values(e)[k]
    ensures var cells := Split(CsvRow(e), ',');
            |cells| == 6 && forall k :: 0 <= k < 6 ==> cells[k] == Quote(Values(e)[k]) && cells[k][1..|cells[k]| - 1] == Values(e)[k]
  {
    var cells := QuoteEach(Values(e));
    forall m | 0 <= m < 6 ensures ',' !in cells[m] {
      assert cells[m] == "\"" + Values(e)[m] + "\"";
    }
    SplitJoin(cells, ',');
    forall k | 0 <= k < 6 ensures cells[k][1..|cells[k]| - 1] == Values(e)[k] {
      assert cells[k] == "\"" + Values(e)[k] + "\"";
    }
  }

  // ---------------------------------------------------------------- reports

  /** The properties `countByProperty` is called with. */
  datatype Property = StatusProperty | TypeProperty | FieldCodeProperty

  function Get(e: Equipment, p: Property): string {
    match p
    case StatusProperty => e.status
    case TypeProperty => e.kind
    case FieldCodeProperty => e.fieldCode
  }

  /** `equipment[property] || 'Unknown'`. */
  function Key(e: Equipment, p: Property): (k: string)
    ensures k != ""
  {
    if Get(e, p) == "" then "Unknown" else Get(e, p)
  }

  function Keys(data: seq<Equipment>, p: Property): (r: seq<string>)
    ensures |r| == |data|
    ensures forall i :: 0 <= i < |data| ==> r[i] == Key(data[i], p)
  {
    if data == [] then [] else Keys(data[..|data| - 1], p) + [Key(data[|data| - 1], p)]
  }

  predicate CountsAsUnknown(p: Property, e: Equipment) {
    Get(e, p) == "" || Get(e, p) == "Unknown"
  }

  function UnknownTest(p: Property): Equipment -> bool {
    e => CountsAsUnknown(p, e)
  }

  /** The `Unknown` bucket holds the records without the property, together with any literally called so. */
  lemma {:induction false} UnknownBucket(data: seq<Equipment>, p: Property)
    ensures Occurrences(Keys(data, p), "Unknown") == CountIf(data, UnknownTest(p))
  {
    if data != [] {
      var init := data[..|data| - 1];
      var last := data[|data| - 1];
      UnknownBucket(init, p);
      assert data == init + [last];
      CountIfSnoc(init, last, UnknownTest(p));
      assert Keys(data, p)[..|data| - 1] == Keys(init, p);
      KeyUnknownIff(last, p);
    }
  }

  lemma KeyUnknownIff(e: Equipment, p: Property)
    ensures Key(e, p) == "Unknown" <==> UnknownTest(p)(e)
  {
  }

  // ---------------------------------------------------------------- the page

  /** The page's state: the loaded list, the (never used) edit id, and the rows the table shows. */
  class EquipmentPage {
    var equipmentData: seq<Equipment>
    var currentEditId: Option<string>
    var rendered: seq<Equipment>

    constructor ()
      ensures equipmentData == [] && currentEditId == None && rendered == []
    {
      equipmentData := [];
      currentEditId := None;
      rendered := [];
    }

    /**
     * `loadEquipmentData`: the `success` callback replaces the list with
     * what came back and renders all of it; the `error` callback leaves the
     * list as it was and shows an error.
     */
    method LoadEquipmentData(response: Option<seq<Equipment>>) returns (notice: Option<Notice>)
      modifies this
      ensures response.Some? ==> equipmentData == response.value && rendered == response.value && notice == None
      ensures response.None? ==> equipmentData == old(equipmentData) && rendered == old(rendered)
                                 && notice == Some(Error("Failed to load equipment data. Please try again."))
      ensures currentEditId == old(currentEditId)
    {
      if response.Some? {
        equipmentData := response.value;
        rendered := equipmentData;
        notice := None;
      } else {
        notice := Some(Error("Failed to load equipment data. Please try again."));
      }
    }

    /** `filterEquipment`: render the filtered list; the loaded list itself is not touched. */
    method FilterEquipment(searchTerm: string)
      modifies this`rendered
      ensures rendered == Filtered(equipmentData, searchTerm)
      ensures searchTerm == "" ==> rendered == equipmentData
    {
      if searchTerm == "" {
        rendered := equipmentData;
        return;
      }
      var filteredData := Filter(equipmentData, MatchTest(searchTerm));
      rendered := filteredData;
    }

    /**
     * `exportEquipmentData`: the header line, then one line per loaded
     * record, each followed by a line feed.
     */
    method ExportEquipmentData() returns (csvContent: string)
      ensures csvContent == Lines([HeaderLine] + CsvRows(equipmentData))
    {
      var header := Join(Headers, ",");
      csvContent := header + "\n";
      csvContent := AppendRows(csvContent, equipmentData);
      LinesCons(header, CsvRows(equipmentData));
    }

    /**
     * `countByProperty`: one entry per distinct key (a missing value counted
     * as `Unknown`), in first-occurrence order, each the key's number of
     * records; the counts add up to the number of loaded records.
     */
    method CountByProperty(p: Property) returns (counts: CountTable)
      ensures KeysOf(counts) == Distinct(Keys(equipmentData, p))
      ensures "" !in KeysOf(counts)
      ensures forall i :: 0 <= i < |counts| ==> counts[i].1 == Occurrences(Keys(equipmentData, p), counts[i].0) && counts[i].1 >= 1
      ensures Total(counts) == |equipmentData|
    {
      counts := CountByKey(Keys(equipmentData, p));
      DistinctMembers(Keys(equipmentData, p), "");
    }
  }
}
