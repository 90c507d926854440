/**
 * The vehicle page: the status badge class, the statistics cards, the
 * create/update submit with its field-by-field validation, the filter
 * dialog and its reset, CSV export of the shown rows, and the status and
 * comprehensive reports' counting.
 */
module Vehicle {
  import opened TextOps
  import opened ListOps
  import opened Tally
  import opened Http

  const Api := "http://localhost:8080/api/v1/vehicle"

  /** A vehicle record as the page sends and receives it; a missing value is the empty string. */
  datatype Vehicle = Vehicle(
    vehicleCode: string, licensePlateNumber: string, vehicleCategory: string,
    fuelType: string, status: string, staffId: string)

  // ---------------------------------------------------------------- badge and cards

  /** The badge class `renderVehicles` gives a status: inactive unless the status is Active or Maintenance. */
  function StatusClass(status: string): (c: string)
    ensures c == "status-active" <==> status == "Active"
    ensures c == "status-maintenance" <==> status == "Maintenance"
    ensures c == "status-active" || c == "status-maintenance" || c == "status-inactive"
  {
    var statusClass := "status-inactive";
    var statusClass := if status == "Active" then "status-active" else statusClass;
    if status == "Maintenance" then "status-maintenance" else statusClass
  }

  predicate IsActive(v: Vehicle) { v.status == "Active" }
  predicate IsInactive(v: Vehicle) { v.status == "Inactive" }
  predicate IsInMaintenance(v: Vehicle) { v.status == "Maintenance" }

  datatype VehicleStats = VehicleStats(total: nat, active: nat, maintenance: nat)

  /** `updateStats`: the total and the exact-match counts of Active and Maintenance, which never exceed it. */
  function UpdateStats(vehicles: seq<Vehicle>): (s: VehicleStats)
    ensures s.total == |vehicles|
    ensures s.active == |Filter(vehicles, IsActive)| && s.maintenance == |Filter(vehicles, IsInMaintenance)|
    ensures s.active + s.maintenance <= s.total
  {
    DisjointCounts2(vehicles, IsActive, IsInMaintenance);
    VehicleStats(|vehicles|, CountIf(vehicles, IsActive), CountIf(vehicles, IsInMaintenance))
  }

  // ---------------------------------------------------------------- submit

  /** The six inputs of the vehicle form, as typed. */
  datatype VehicleForm = VehicleForm(
    vehicleCodeInput: string, licensePlateInput: string, categoryInput: string,
    fuelTypeInput: string, statusInput: string, staffIdInput: string)

  /** The record the handler builds: code, plate and staff id trimmed, the three selects as chosen. */
  function ReadForm(f: VehicleForm): Vehicle {
    Vehicle(Trim(f.vehicleCodeInput), Trim(f.licensePlateInput), f.categoryInput,
            f.fuelTypeInput, f.statusInput, Trim(f.staffIdInput))
  }

  /** The record's six values in form order. */
  function Values(v: Vehicle): (r: seq<string>)
    ensures |r| == 6
  {
    [v.vehicleCode, v.licensePlateNumber, v.vehicleCategory, v.fuelType, v.status, v.staffId]
  }

  /** The label the error message uses for each field, in form order. */
  const Labels: seq<string> := ["Vehicle Code", "License Plate", "Category", "Fuel Type", "Status", "Staff ID"]

  const ErrorPrefix := "Please fill in all fields: "

  /** The labels of the empty values among the first `n`, in form order. */
  function MissingUpTo(v: Vehicle, n: nat): (r: seq<string>)
    requires n <= 6
    ensures r == [] <==> forall i :: 0 <= i < n ==> Values(v)[i] != ""
    ensures forall k :: 0 <= k < |r| ==> r[k] in Labels && EndsInLetter(r[k])
  {
    if n == 0 then []
    else MissingUpTo(v, n - 1) + (if Values(v)[n - 1] == "" then [Labels[n - 1]] else [])
  }

  /** The labels of the empty values, in form order. */
  function Missing(v: Vehicle): seq<string> {
    MissingUpTo(v, 6)
  }

  /** What the submit handler does next. */
  datatype SubmitAction = ShowError(message: string) | SaveVehicle(data: Vehicle) | UpdateVehicle(code: string, data: Vehicle)

  /**
   * The decision of `handleFormSubmit`: if any of the six values is empty it
   * shows the prefix and the missing fields' labels, in form order,
   * separated by ", "; otherwise it updates the vehicle being edited when
   * the edit flag is the string `'true'`, and saves a new one otherwise.
   */
  function Decide(f: VehicleForm, editMode: string, editVehicleCode: string): SubmitAction {
    var data := ReadForm(f);
    var missing := Missing(data);
    if missing != [] then ShowError(ErrorPrefix + Join(missing, ", "))
    else if editMode == "true" then UpdateVehicle(editVehicleCode, data)
    else SaveVehicle(data)
  }

  /** `errorMessage.replace(/,\s*$/, '')`: drop a last comma that only white space follows, with that space. */
  function StripTrailingComma(s: string): string {
    var t := TrimEnd(s);
    if t != [] && t[|t| - 1] == ',' then t[..|t| - 1] else s
  }

  /** The text the checks append to: each missing label followed by ", ". */
  function Appended(labels: seq<string>): string {
    if labels == [] then "" else labels[0] + ", " + Appended(labels[1..])
  }

  /**
   * `handleFormSubmit`: the six checks in order, each appending its label
   * and ", " to the message and turning its border red, then the trailing
   * comma removed. Returns what the handler does and, per field in form
   * order, whether its border was turned red.
   */
  method HandleFormSubmit(f: VehicleForm, editMode: string, editVehicleCode: string)
    returns (action: SubmitAction, redBorder: seq<bool>)
    ensures action == Decide(f, editMode, editVehicleCode)
    ensures |redBorder| == 6
    ensures forall i :: 0 <= i < 6 ==> (redBorder[i] <==> Values(ReadForm(f))[i] == "")
  {
    var vehicleData := ReadForm(f);
    var hasError := false;
    var errorMessage := ErrorPrefix;
    redBorder := [false, false, false, false, false, false];

    errorMessage, redBorder, hasError := CheckField(vehicleData, 0, errorMessage, redBorder, hasError);
    errorMessage, redBorder, hasError := CheckField(vehicleData, 1, errorMessage, redBorder, hasError);
    errorMessage, redBorder, hasError := CheckField(vehicleData, 2, errorMessage, redBorder, hasError);
    errorMessage, redBorder, hasError := CheckField(vehicleData, 3, errorMessage, redBorder, hasError);
    errorMessage, redBorder, hasError := CheckField(vehicleData, 4, errorMessage, redBorder, hasError);
    errorMessage, redBorder, hasError := CheckField(vehicleData, 5, errorMessage, redBorder, hasError);

    if hasError {
      StripAppended(ErrorPrefix, Missing(vehicleData));
      errorMessage := StripTrailingComma(errorMessage);
      action := ShowError(errorMessage);
      return;
    }

    if editMode == "true" {
      action := UpdateVehicle(editVehicleCode, vehicleData);
    } else {
      action := SaveVehicle(vehicleData);
    }
  }

  /**
   * The check of field `k` (the six in the handler are the same code): an
   * empty value appends its label and ", " to the message, turns the
   * field's border red and records that there was an error; a filled one
   * changes nothing. Before and after it, message, borders and flag
   * describe the fields checked so far.
   */
  method CheckField(v: Vehicle, k: nat, errorMessage: string, redBorder: seq<bool>, hasError: bool)
    returns (errorMessage': string, redBorder': seq<bool>, hasError': bool)
    requires k < 6 && |redBorder| == 6
    requires errorMessage == ErrorPrefix + Appended(MissingUpTo(v, k))
    requires forall i :: 0 <= i < 6 ==> (redBorder[i] <==> i < k && Values(v)[i] == "")
    requires hasError <==> MissingUpTo(v, k) != []
    ensures errorMessage' == ErrorPrefix + Appended(MissingUpTo(v, k + 1))
    ensures |redBorder'| == 6
    ensures forall i :: 0 <= i < 6 ==> (redBorder'[i] <==> i < k + 1 && Values(v)[i] == "")
    ensures hasError' <==> MissingUpTo(v, k + 1) != []
  {
    errorMessage', redBorder', hasError' := errorMessage, redBorder, hasError;
    MessageStep(v, k);
    if Values(v)[k] == "" {
      errorMessage' := errorMessage + Labels[k] + ", ";
      redBorder' := redBorder[k := true];
      hasError' := true;
    }
  }

  /** What one check appends to the message: the label and ", " when the value is empty, nothing otherwise. */
  lemma MessageStep(v: Vehicle, k: nat)
    requires k < 6
    ensures ErrorPrefix + Appended(MissingUpTo(v, k + 1)) ==
              if Values(v)[k] == "" then ErrorPrefix + Appended(MissingUpTo(v, k)) + Labels[k] + ", "
              else ErrorPrefix + Appended(MissingUpTo(v, k))
  {
    var m := MissingUpTo(v, k);
    if Values(v)[k] == "" {
      AppendedSnoc(m, Labels[k]);
      assert MissingUpTo(v, k + 1) == m + [Labels[k]];
    } else {
      assert MissingUpTo(v, k + 1) == m;
    }
  }

  lemma {:induction false} AppendedSnoc(labels: seq<string>, l: string)
    ensures Appended(labels + [l]) == Appended(labels) + l + ", "
  {
    if labels != [] {
      AppendedSnoc(labels[1..], l);
      assert (labels + [l])[1..] == labels[1..] + [l];
    } else {
      assert Appended([l]) == l + ", " + Appended([]);
    }
  }

  /** Every label ends in a letter, so the comma after the last one is the message's last comma. */
  predicate EndsInLetter(s: string) {
    s != [] && 'A' <= s[|s| - 1] <= 'z'
  }

  /** Appending ", " after each label and then stripping the trailing comma joins them with ", ". */
  lemma StripAppended(prefix: string, labels: seq<string>)
    requires labels != [] && EndsInLetter(labels[|labels| - 1])
    ensures StripTrailingComma(prefix + Appended(labels)) == prefix + Join(labels, ", ")
  {
    var j := Join(labels, ", ");
    AppendedJoin(labels);
    ConcatAssoc(prefix, j, ", ");
    JoinEndsWithLast(labels, ", ");
    ConcatEndsInLetter(prefix, j);
    StripAfterWord(prefix + j);
  }

  lemma ConcatAssoc(a: string, b: string, c: string)
    ensures a + (b + c) == (a + b) + c
  {
  }

  lemma ConcatEndsInLetter(s: string, t: string)
    requires EndsInLetter(t)
    ensures EndsInLetter(s + t)
  {
    assert (s + t)[|s + t| - 1] == t[|t| - 1];
  }

  lemma StripAfterWord(x: string)
    requires EndsInLetter(x)
    ensures StripTrailingComma(x + ", ") == x
  {
    var s := x + ", ";
    assert s[|s| - 1] == ' ';
    assert s[..|s| - 1] == x + ",";
    var t := x + ",";
    assert t[|t| - 1] == ',';
    assert TrimEnd(t) == t;
    assert TrimEnd(s) == t;
    assert t[..|t| - 1] == x;
  }

  lemma {:induction false} AppendedJoin(labels: seq<string>)
    requires labels != []
    ensures Appended(labels) == Join(labels, ", ") + ", "
  {
    if |labels| > 1 {
      AppendedJoin(labels[1..]);
    } else {
      assert Appended(labels) == labels[0] + ", " + Appended([]);
    }
  }

  /** A join of parts whose last part is not empty ends with that part's last character. */
  lemma {:induction false} JoinEndsWithLast(parts: seq<string>, sep: string)
    requires parts != [] && EndsInLetter(parts[|parts| - 1])
    ensures EndsInLetter(Join(parts, sep))
  {
    if |parts| > 1 {
      JoinEndsWithLast(parts[1..], sep);
    }
  }

  /** The request the chosen action issues: none for a validation error. */
  function RequestFor(action: SubmitAction): (r: Option<Request<Vehicle>>)
    ensures r.None? <==> action.ShowError?
  {
    match action
    case ShowError(_) => None
    case SaveVehicle(data) => Some(Request(POST, Api + "/save", data))
    case UpdateVehicle(code, data) => Some(Request(PUT, Api + "/update/" + code, data))
  }

  /**
   * Validation failure issues no request, and a complete form issues
   * exactly one: a PUT to the edited code in edit mode, a POST of the new
   * vehicle otherwise, carrying the trimmed values.
   */
  lemma SubmitIssuesRequestIffComplete(f: VehicleForm, editMode: string, editVehicleCode: string)
    ensures RequestFor(Decide(f, editMode, editVehicleCode)).None? <==>
              exists i :: 0 <= i < 6 && Values(ReadForm(f))[i] == ""
    ensures RequestFor(Decide(f, editMode, editVehicleCode)).Some? ==>
              RequestFor(Decide(f, editMode, editVehicleCode)).value ==
                (if editMode == "true" then Request(PUT, Api + "/update/" + editVehicleCode, ReadForm(f))
                 else Request(POST, Api + "/save", ReadForm(f)))
  {
  }

  /** White space alone does not fill the code, plate or staff-id input. */
  lemma BlankCodeIsMissing(f: VehicleForm, editMode: string, editVehicleCode: string)
    requires AllSpace(f.vehicleCodeInput)
    ensures Decide(f, editMode, editVehicleCode).ShowError?
  {
    TrimEmptyIff(f.vehicleCodeInput);
    assert Values(ReadForm(f))[0] == "";
  }

  /**
   * The toast after `saveVehicle`/`updateVehicle`: success exactly for a
   * status in 200..299; otherwise the server's text, or a fixed fallback
   * when that text (or the failure's message) is empty.
   */
  function SaveNotice(isUpdate: bool, response: Response): (n: Notice)
    ensures n.Success? <==> response.Status? && Ok(response.code)
    ensures n.Success? ==> n.text == if isUpdate then "Vehicle updated successfully" else "Vehicle saved successfully"
    ensures n.Error? && response.Status? && response.text != "" ==> n.text == response.text
    ensures response.NetworkError? && response.message != "" ==> n == Error(response.message)
    ensures n.Error? && (if response.Status? then response.text == "" else response.message == "") ==>
              n.text == if isUpdate then "Failed to update vehicle" else "Failed to save vehicle"
    ensures n.Error? ==> n.text != ""
  {
    var fallback := if isUpdate then "Failed to update vehicle" else "Failed to save vehicle";
    match response
    case Status(code, text) =>
      if Ok(code) then Success(if isUpdate then "Vehicle updated successfully" else "Vehicle saved successfully")
      else Error(if text != "" then text else fallback)
    case NetworkError(message) => Error(if message != "" then message else fallback)
  }

  // ---------------------------------------------------------------- filter dialog

  /** The three choices of the filter dialog; an empty choice filters nothing. */
  datatype Filters = Filters(status: string, category: string, fuel: string)

  /** Whether a row of at least five cells passes the filters: each chosen value equals its trimmed cell. */
  predicate RowPasses(cells: seq<string>, f: Filters)
    requires |cells| >= 5
  {
    (f.status == "" || Trim(cells[4]) == f.status)
    && (f.category == "" || Trim(cells[2]) == f.category)
    && (f.fuel == "" || Trim(cells[3]) == f.fuel)
  }

  /** With no value chosen, every row passes. */
  lemma EmptyFiltersPassAll(cells: seq<string>)
    requires |cells| >= 5
    ensures RowPasses(cells, Filters("", "", ""))
  {
  }

  /** Choosing one more value can only hide rows. */
  lemma MoreFiltersHideMore(cells: seq<string>, f: Filters)
    requires |cells| >= 5
    requires RowPasses(cells, f)
    ensures RowPasses(cells, f.(status := "")) && RowPasses(cells, f.(category := "")) && RowPasses(cells, f.(fuel := ""))
  {
  }

  /** The index of the first row too short to have a status cell (the "No vehicles found" row), or the row count. */
  function FirstShortRow(rows: seq<seq<string>>): (k: nat)
    ensures k <= |rows|
    ensures forall i :: 0 <= i < k ==> |rows[i]| >= 5
    ensures k < |rows| ==> |rows[k]| < 5
  {
    if rows == [] then 0 else if |rows[0]| < 5 then 0 else 1 + FirstShortRow(rows[1..])
  }

  /** The vehicle table body: each row's cell texts, which rows are shown, and the search box. */
  class VehicleTable {
    var rows: seq<seq<string>>
    var shown: seq<bool>
    var searchValue: string

    ghost predicate Valid()
      reads this
    {
      |shown| == |rows|
    }

    /** A freshly rendered table: every row shown. */
    constructor(rendered: seq<seq<string>>, search: string)
      ensures Valid()
      ensures rows == rendered && searchValue == search
      ensures forall i :: 0 <= i < |shown| ==> shown[i]
    {
      rows := rendered;
      shown := seq(|rendered|, _ => true);
      searchValue := search;
    }

    /**
     * `applyFilters`: every row is shown exactly when it passes the filters.
     * A row without a fifth cell makes `row.cells[4].textContent` throw:
     * the rows before it are updated, the rest keep their display and no
     * "applied" toast shows.
     */
    method ApplyFilters(f: Filters) returns (applied: bool)
      requires Valid()
      modifies this
      ensures Valid()
      ensures rows == old(rows) && searchValue == old(searchValue)
      ensures applied <==> FirstShortRow(rows) == |rows|
      ensures forall i :: 0 <= i < FirstShortRow(rows) ==> (shown[i] <==> RowPasses(rows[i], f))
      ensures forall i :: FirstShortRow(rows) <= i < |rows| ==> shown[i] == old(shown[i])
    {
      var i := 0;
      while i < |rows| && |rows[i]| >= 5
        invariant 0 <= i <= FirstShortRow(rows)
        invariant |shown| == |rows| && rows == old(rows) && searchValue == old(searchValue)
        invariant forall k :: 0 <= k < i ==> (shown[k] <==> RowPasses(rows[k], f))
        invariant forall k :: i <= k < |rows| ==> shown[k] == old(shown[k])
      {
        var status := Trim(rows[i][4]);
        var category := Trim(rows[i][2]);
        var fuel := Trim(rows[i][3]);
        var statusMatch := f.status == "" || status == f.status;
        var categoryMatch := f.category == "" || category == f.category;
        var fuelMatch := f.fuel == "" || fuel == f.fuel;
        shown := shown[i := statusMatch && categoryMatch && fuelMatch];
        i := i + 1;
      }
      applied := i == |rows|;
    }

    /** `clearFilters`: every row shown again and the search box emptied. */
    method ClearFilters()
      requires Valid()
      modifies this
      ensures Valid()
      ensures rows == old(rows)
      ensures forall i :: 0 <= i < |shown| ==> shown[i]
      ensures searchValue == ""
    {
      var i := 0;
      while i < |rows|
        invariant 0 <= i <= |rows|
        invariant |shown| == |rows| && rows == old(rows)
        invariant forall k :: 0 <= k < i ==> shown[k]
      {
        shown := shown[i := true];
        i := i + 1;
      }
      searchValue := "";
    }
  }

  // ---------------------------------------------------------------- export

  /** The cells `exportData` keeps from a row: those before the actions column (index below 6). */
  function ExportCells(cells: seq<string>): (r: seq<string>)
    ensures |r| <= 6
  {
    Take(cells, 6)
  }

  /** The lines `exportData` writes: the header texts, then one line for each shown row, in table order. */
  function ExportLines(headers: seq<string>, rows: seq<seq<string>>, shown: seq<bool>): (ls: seq<string>)
    requires |shown| == |rows|
    ensures |ls| >= 1 && ls[0] == Join(headers, ",")
  {
    [Join(headers, ",")] + ShownRowLines(rows, shown)
  }

  function ShownRowLines(rows: seq<seq<string>>, shown: seq<bool>): seq<string>
    requires |shown| == |rows|
  {
    if rows == [] then []
    else
      ShownRowLines(rows[..|rows| - 1], shown[..|rows| - 1])
      + (if shown[|rows| - 1] then [Join(ExportCells(rows[|rows| - 1]), ",")] else [])
  }

  function CountTrue(bs: seq<bool>): nat {
    if bs == [] then 0 else CountTrue(bs[..|bs| - 1]) + (if bs[|bs| - 1] then 1 else 0)
  }

  /** One exported line per shown row: hidden rows are never exported. */
  lemma {:induction false} ShownRowCount(rows: seq<seq<string>>, shown: seq<bool>)
    requires |shown| == |rows|
    ensures |ShownRowLines(rows, shown)| == CountTrue(shown)
  {
    if rows != [] {
      ShownRowCount(rows[..|rows| - 1], shown[..|rows| - 1]);
    }
  }

  /**
   * `exportData`: the CSV text is the header line and the shown rows' lines
   * joined with line feeds (no quoting, no final line feed).
   */
  method ExportData(headers: seq<string>, rows: seq<seq<string>>, shown: seq<bool>) returns (csv: string)
    requires |shown| == |rows|
    ensures csv == Join(ExportLines(headers, rows, shown), "\n")
  {
    var lines := [Join(headers, ",")];
    var i := 0;
    while i < |rows|
      invariant 0 <= i <= |rows|
      invariant lines == [Join(headers, ",")] + ShownRowLines(rows[..i], shown[..i])
    {
      if shown[i] {
        var rowData: seq<string> := [];
        var index := 0;
        while index < |rows[i]|
          invariant 0 <= index <= |rows[i]|
          invariant rowData == Take(rows[i][..index], 6)
        {
          if index < 6 {
            rowData := rowData + [rows[i][index]];
          }
          assert rows[i][..index + 1] == rows[i][..index] + [rows[i][index]];
          index := index + 1;
        }
        assert rows[i][..|rows[i]|] == rows[i];
        lines := lines + [Join(rowData, ",")];
      }
      assert rows[..i + 1][..i] == rows[..i] && shown[..i + 1][..i] == shown[..i];
      i := i + 1;
    }
    assert rows[..|rows|] == rows && shown[..|rows|] == shown;
    csv := Join(lines, "\n");
  }

  /** With no line feed in any text, the export splits back into its header line and one line per shown row. */
  lemma ExportReadsBack(headers: seq<string>, rows: seq<seq<string>>, shown: seq<bool>)
    requires |shown| == |rows|
    requires forall k :: 0 <= k < |ExportLines(headers, rows, shown)| ==> '\n' !in ExportLines(headers, rows, shown)[k]
    ensures Split(Join(ExportLines(headers, rows, shown), "\n"), '\n') == ExportLines(headers, rows, shown)
    ensures |Split(Join(ExportLines(headers, rows, shown), "\n"), '\n')| == 1 + CountTrue(shown)
  {
    SplitJoin(ExportLines(headers, rows, shown), '\n');
    ShownRowCount(rows, shown);
  }

  // ---------------------------------------------------------------- reports

  /** The properties `countByProperty` is called with. */
  datatype Property = StatusProperty | CategoryProperty | FuelTypeProperty | StaffIdProperty

  function Get(v: Vehicle, p: Property): string {
    match p
    case StatusProperty => v.status
    case CategoryProperty => v.vehicleCategory
    case FuelTypeProperty => v.fuelType
    case StaffIdProperty => v.staffId
  }

  function PropertyValues(vehicles: seq<Vehicle>, p: Property): (r: seq<string>)
    ensures |r| == |vehicles|
    ensures forall i :: 0 <= i < |vehicles| ==> r[i] == Get(vehicles[i], p)
  {
    if vehicles == [] then [] else [Get(vehicles[0], p)] + PropertyValues(vehicles[1..], p)
  }

  /**
   * `countByProperty(array, property)`: one entry per distinct value in
   * first-occurrence order, each count at least 1 and equal to how often the
   * value occurs, the counts adding up to the number of vehicles.
   */
  method CountByProperty(vehicles: seq<Vehicle>, p: Property) returns (counts: CountTable)
    ensures KeysOf(counts) == Distinct(PropertyValues(vehicles, p))
    ensures forall i :: 0 <= i < |counts| ==>
              counts[i].1 == Occurrences(PropertyValues(vehicles, p), counts[i].0) && counts[i].1 >= 1
    ensures Total(counts) == |vehicles|
  {
    counts := CountByKey(PropertyValues(vehicles, p));
  }

  /**
   * `generateStatusReport`: the fixed keys Active, Inactive and Maintenance
   * in that order, each the exact-match count; any other status is ignored,
   * so the three add up to at most the number of vehicles.
   */
  method StatusReport(vehicles: seq<Vehicle>) returns (statusCounts: CountTable)
    ensures KeysOf(statusCounts) == ["Active", "Inactive", "Maintenance"]
    ensures ValuesOf(statusCounts) == [CountIf(vehicles, IsActive), CountIf(vehicles, IsInactive), CountIf(vehicles, IsInMaintenance)]
    ensures Total(statusCounts) <= |vehicles|
  {
    var active, inactive, maintenance := 0, 0, 0;
    var i := 0;
    while i < |vehicles|
      invariant 0 <= i <= |vehicles|
      invariant active == CountIf(vehicles[..i], IsActive) && inactive == CountIf(vehicles[..i], IsInactive)
                && maintenance == CountIf(vehicles[..i], IsInMaintenance)
    {
      var status := vehicles[i].status;
      if status == "Active" {
        active := active + 1;
      } else if status == "Inactive" {
        inactive := inactive + 1;
      } else if status == "Maintenance" {
        maintenance := maintenance + 1;
      }
      assert vehicles[..i + 1] == vehicles[..i] + [vehicles[i]];
      CountIfSnoc(vehicles[..i], vehicles[i], IsActive);
      CountIfSnoc(vehicles[..i], vehicles[i], IsInactive);
      CountIfSnoc(vehicles[..i], vehicles[i], IsInMaintenance);
      i := i + 1;
    }
    assert vehicles[..|vehicles|] == vehicles;
    DisjointCounts3(vehicles, IsActive, IsInactive, IsInMaintenance);
    statusCounts := [("Active", active), ("Inactive", inactive), ("Maintenance", maintenance)];
    assert Total(statusCounts) == active + Total(statusCounts[1..]);
    assert Total(statusCounts[1..]) == inactive + Total(statusCounts[2..]);
    assert KeysOf(statusCounts) == ["Active"] + KeysOf(statusCounts[1..]);
    assert ValuesOf(statusCounts) == [active] + ValuesOf(statusCounts[1..]);
  }

  /**
   * The "Top 10 staff" chart as written: `Object.keys(staffCounts).slice(0, 10)`,
   * the first ten distinct staff ids in first-occurrence order with their
   * counts, whatever those counts are.
   */
  method TopStaffAsWritten(vehicles: seq<Vehicle>) returns (labels: seq<string>, data: seq<nat>)
    ensures labels == Take(Distinct(PropertyValues(vehicles, StaffIdProperty)), 10)
    ensures |data| == |labels|
    ensures forall i :: 0 <= i < |labels| ==> data[i] == Occurrences(PropertyValues(vehicles, StaffIdProperty), labels[i])
  {
    var staffCounts := CountByProperty(vehicles, StaffIdProperty);
    labels := Take(KeysOf(staffCounts), 10);
    data := Take(ValuesOf(staffCounts), 10);
  }

  /** The order of a count table entry: its count. */
  function ByCount(e: (string, nat)): real {
    e.1 as real
  }

  /**
   * The chart as its comment and title intend ("top 10 staff with most
   * vehicles"): the table sorted by count, largest first (ties in
   * first-occurrence order), then the first ten. No staff member left out
   * has more vehicles than one shown.
   */
  method TopStaff(vehicles: seq<Vehicle>) returns (top: CountTable)
    ensures |top| == if |Distinct(PropertyValues(vehicles, StaffIdProperty))| < 10
                     then |Distinct(PropertyValues(vehicles, StaffIdProperty))| else 10
    ensures forall i :: 0 <= i < |top| ==> top[i].1 == Occurrences(PropertyValues(vehicles, StaffIdProperty), top[i].0)
    ensures forall i, j :: 0 <= i < j < |top| ==> top[i].1 >= top[j].1
    ensures forall e, x :: e in top && x in PropertyValues(vehicles, StaffIdProperty) && x !in KeysOf(top) ==>
              Occurrences(PropertyValues(vehicles, StaffIdProperty), x) <= e.1
  {
    var staffCounts := CountByProperty(vehicles, StaffIdProperty);
    top := Take(SortDesc(staffCounts, ByCount), 10);
    TopByCount(PropertyValues(vehicles, StaffIdProperty), staffCounts, 10, top);
  }

  /** Taking the first `n` of a count table sorted by count keeps the `n` largest counts. */
  lemma TopByCount(ids: seq<string>, t: CountTable, n: nat, top: CountTable)
    requires KeysOf(t) == Distinct(ids)
    requires forall i :: 0 <= i < |t| ==> t[i].1 == Occurrences(ids, t[i].0)
    requires top == Take(SortDesc(t, ByCount), n)
    ensures |top| == if |Distinct(ids)| < n then |Distinct(ids)| else n
    ensures forall i :: 0 <= i < |top| ==> top[i].1 == Occurrences(ids, top[i].0)
    ensures forall i, j :: 0 <= i < j < |top| ==> top[i].1 >= top[j].1
    ensures forall e, x :: e in top && x in ids && x !in KeysOf(top) ==> Occurrences(ids, x) <= e.1
  {
    var sorted := SortDesc(t, ByCount);
    assert |KeysOf(t)| == |t|;
    SortDescFacts(t, ByCount);
    SortedCountsExact(ids, t, sorted);
    TopCountsExact(ids, sorted, top);
    TopDescending(sorted, top);
    forall e, x | e in top && x in ids && x !in KeysOf(top) ensures Occurrences(ids, x) <= e.1 {
      OutsideTopIsSmaller(ids, t, n, e, x);
    }
  }

  lemma SortedCountsExact(ids: seq<string>, t: CountTable, sorted: CountTable)
    requires forall i :: 0 <= i < |t| ==> t[i].1 == Occurrences(ids, t[i].0)
    requires multiset(sorted) == multiset(t)
    ensures forall e :: e in sorted ==> e.1 == Occurrences(ids, e.0)
  {
    forall e | e in sorted ensures e.1 == Occurrences(ids, e.0) {
      assert e in multiset(sorted);
      var k :| 0 <= k < |t| && t[k] == e;
    }
  }

  lemma TopCountsExact(ids: seq<string>, sorted: CountTable, top: CountTable)
    requires forall e :: e in sorted ==> e.1 == Occurrences(ids, e.0)
    requires top <= sorted
    ensures forall i :: 0 <= i < |top| ==> top[i].1 == Occurrences(ids, top[i].0)
  {
    forall i | 0 <= i < |top| ensures top[i].1 == Occurrences(ids, top[i].0) {
      assert top[i] == sorted[i];
    }
  }

  lemma TopDescending(sorted: CountTable, top: CountTable)
    requires SortedDesc(sorted, ByCount) && top <= sorted
    ensures forall i, j :: 0 <= i < j < |top| ==> top[i].1 >= top[j].1
  {
    forall i, j | 0 <= i < j < |top| ensures top[i].1 >= top[j].1 {
      assert top[i] == sorted[i] && top[j] == sorted[j];
      assert ByCount(sorted[i]) >= ByCount(sorted[j]);
    }
  }

  lemma OutsideTopIsSmaller(ids: seq<string>, t: CountTable, n: nat, e: (string, nat), x: string)
    requires KeysOf(t) == Distinct(ids)
    requires forall i :: 0 <= i < |t| ==> t[i].1 == Occurrences(ids, t[i].0)
    requires SortedDesc(SortDesc(t, ByCount), ByCount) && multiset(SortDesc(t, ByCount)) == multiset(t)
    requires e in Take(SortDesc(t, ByCount), n) && x in ids && x !in KeysOf(Take(SortDesc(t, ByCount), n))
    ensures Occurrences(ids, x) <= e.1
  {
    var sorted := SortDesc(t, ByCount);
    var top := Take(sorted, n);
    DistinctMembers(ids, x);
    var k :| 0 <= k < |t| && KeysOf(t)[k] == x;
    assert t[k] in multiset(sorted);
    var m :| 0 <= m < |sorted| && sorted[m] == t[k];
    var a :| 0 <= a < |top| && top[a] == e;
    assert sorted[a] == e;
    TopOfSortedDesc(sorted, ByCount, n);
    assert ByCount(sorted[a]) >= ByCount(sorted[m]);
  }

  /**
   * The chart as written drops the staff member with the most vehicles when
   * ten others were seen first: ten ids with one vehicle each, then two
   * vehicles of an eleventh. The eleventh is not shown, although each of
   * the ten shown has fewer vehicles.
   */
  lemma TopStaffMissesBusiest(first: seq<string>, x: string)
    requires |first| == 10 && NoDuplicates(first) && x !in first
    ensures var ids := first + [x, x];
            x !in Take(Distinct(ids), 10) && Occurrences(ids, x) == 2
            && forall y :: y in Take(Distinct(ids), 10) ==> Occurrences(ids, y) == 1
  {
    var ids := first + [x, x];
    DistinctLength(first);
    assert ids[..|ids| - 1] == first + [x];
    assert (first + [x])[..10] == first;
    assert Distinct(first + [x]) == first + [x];
    assert Distinct(ids) == first + [x];
    assert Take(first + [x], 10) == first;
    OccurrencesAppend(first, [x, x], x);
    OccurrencesOfAbsent(first, x);
    assert [x, x][..1] == [x];
    forall y | y in first ensures Occurrences(ids, y) == 1 {
      OccurrencesAppend(first, [x, x], y);
      OccurrencesOnce(first, y);
      OccurrencesOfAbsent([x, x], y);
    }
  }

  /** A concrete instance: staff S1 to S10 with one vehicle each, then S11 with two. */
  lemma TopStaffMissesS11()
    ensures var ids := ["S1", "S2", "S3", "S4", "S5", "S6", "S7", "S8", "S9", "S10", "S11", "S11"];
            "S11" !in Take(Distinct(ids), 10) && Occurrences(ids, "S11") == 2
            && forall y :: y in Take(Distinct(ids), 10) ==> Occurrences(ids, y) == 1
  {
    var first := ["S1", "S2", "S3", "S4", "S5", "S6", "S7", "S8", "S9", "S10"];
    assert first + ["S11", "S11"] == ["S1", "S2", "S3", "S4", "S5", "S6", "S7", "S8", "S9", "S10", "S11", "S11"];
    TopStaffMissesBusiest(first, "S11");
  }

  /** In a list without repeats every member occurs once. */
  lemma {:induction false} OccurrencesOnce(xs: seq<string>, y: string)
    requires NoDuplicates(xs) && y in xs
    ensures Occurrences(xs, y) == 1
  {
    var p := xs[..|xs| - 1];
    assert xs == p + [xs[|xs| - 1]];
    if xs[|xs| - 1] == y {
      assert y !in p by {
        forall i | 0 <= i < |p| ensures p[i] != y {
          assert p[i] == xs[i];
        }
      }
      OccurrencesOfAbsent(p, y);
    } else {
      assert NoDuplicates(p) by {
        forall i, j | 0 <= i < j < |p| ensures p[i] != p[j] {
          assert p[i] == xs[i] && p[j] == xs[j];
        }
      }
      OccurrencesOnce(p, y);
    }
  }

  lemma {:induction false} OccurrencesAppend(xs: seq<string>, ys: seq<string>, k: string)
    ensures Occurrences(xs + ys, k) == Occurrences(xs, k) + Occurrences(ys, k)
  {
    if ys == [] {
      assert xs + ys == xs;
    } else {
      OccurrencesAppend(xs, ys[..|ys| - 1], k);
      assert (xs + ys)[..|xs + ys| - 1] == xs + ys[..|ys| - 1];
    }
  }

  lemma DistinctLength(xs: seq<string>)
    requires NoDuplicates(xs)
    ensures Distinct(xs) == xs
  {
    if xs != [] {
      var p := xs[..|xs| - 1];
      assert NoDuplicates(p) by {
        forall i, j | 0 <= i < j < |p| ensures p[i] != p[j] {
          assert p[i] == xs[i] && p[j] == xs[j];
        }
      }
      DistinctLength(p);
      DistinctMembers(p, xs[|xs| - 1]);
      assert xs[|xs| - 1] !in p;
      assert xs == p + [xs[|xs| - 1]];
    }
  }
}
