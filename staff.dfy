/**
 * The staff page: search and role filtering of the table, the statistics
 * cards, the role, gender and joining-trend reports, the comprehensive
 * report's counts, CSV export of the table, and the create/update submit.
 */
module Staff {
  import opened TextOps
  import opened ListOps
  import opened Tally
  import opened Http
  import Rows

  const Api := "http://localhost:8080/api/v1/staff"

  /** A staff record as the backend sends it; a missing value is the empty string. */
  datatype StaffMember = StaffMember(
    staffId: string, firstName: string, lastName: string, designation: string,
    gender: string, joinedDate: string, dob: string, address: string,
    contactNo: string, email: string, role: string, logCode: string)

  // ---------------------------------------------------------------- table filters

  /**
   * `filterStaff`: the search box keeps a row shown exactly when its
   * lower-cased text contains the lower-cased search value; an empty value
   * shows every row.
   */
  method FilterStaff(rowTexts: seq<string>, searchValue: string) returns (shown: seq<bool>)
    ensures |shown| == |rowTexts|
    ensures forall i :: 0 <= i < |rowTexts| ==> (shown[i] <==> Contains(Lower(rowTexts[i]), Lower(searchValue)))
    ensures searchValue == "" ==> forall i :: 0 <= i < |rowTexts| ==> shown[i]
  {
    shown := Rows.SearchRows(rowTexts, searchValue);
    if searchValue == "" {
      forall i | 0 <= i < |rowTexts| ensures shown[i] {
        Rows.EmptySearchShowsAll(rowTexts[i]);
      }
    }
  }

  /**
   * `filterByRole`, run over the texts of each row's fourth cell: `'ALL'`
   * shows every row, any other choice shows a row exactly when its role cell
   * contains the chosen value (case-sensitively).
   */
  method FilterByRole(roleCells: seq<string>, role: string) returns (shown: seq<bool>)
    ensures |shown| == |roleCells|
    ensures role == "ALL" ==> forall i :: 0 <= i < |roleCells| ==> shown[i]
    ensures role != "ALL" ==> forall i :: 0 <= i < |roleCells| ==> (shown[i] <==> Contains(roleCells[i], role))
  {
    shown := [];
    var i := 0;
    while i < |roleCells|
      invariant 0 <= i <= |roleCells|
      invariant |shown| == i
      invariant role == "ALL" ==> forall k :: 0 <= k < i ==> shown[k]
      invariant role != "ALL" ==> forall k :: 0 <= k < i ==> (shown[k] <==> Contains(roleCells[k], role))
    {
      if role == "ALL" {
        shown := shown + [true];
      } else {
        shown := shown + [Contains(roleCells[i], role)];
      }
      i := i + 1;
    }
  }

  // ---------------------------------------------------------------- role counts

  predicate IsManager(s: StaffMember) { s.role == "MANAGER" }
  predicate IsAdministrative(s: StaffMember) { s.role == "ADMINISTRATIVE" }
  predicate IsScientist(s: StaffMember) { s.role == "SCIENTIST" }
  predicate IsMale(s: StaffMember) { s.gender == "MALE" }
  predicate IsFemale(s: StaffMember) { s.gender == "FEMALE" }

  /** The statistics cards of `updateStats`. */
  datatype StaffStats = StaffStats(total: nat, managers: nat, administrative: nat, scientists: nat)

  /**
   * `updateStats`: the total and the exact-match counts of the three roles;
   * a record has one role, so the three counts never exceed the total.
   */
  function UpdateStats(staff: seq<StaffMember>): (s: StaffStats)
    ensures s.total == |staff|
    ensures s.managers + s.administrative + s.scientists <= s.total
    ensures s.managers == |Filter(staff, IsManager)| && s.administrative == |Filter(staff, IsAdministrative)|
            && s.scientists == |Filter(staff, IsScientist)|
  {
    DisjointCounts3(staff, IsManager, IsAdministrative, IsScientist);
    StaffStats(|staff|, CountIf(staff, IsManager), CountIf(staff, IsAdministrative), CountIf(staff, IsScientist))
  }

  /** The counts of the comprehensive report. */
  datatype FullReportCounts = FullReportCounts(
    total: nat, managers: nat, administrative: nat, scientists: nat, other: int, male: nat, female: nat)

  /**
   * `generateFullReport`'s counts: `otherCount` is the total less the three
   * named roles, which is never negative and makes the four role counts add
   * up to the total; male and female are exact matches on the stored gender.
   */
  function FullReport(staff: seq<StaffMember>): (c: FullReportCounts)
    ensures c.total == |staff|
    ensures c.other >= 0
    ensures c.managers + c.administrative + c.scientists + c.other == c.total
    ensures c.male + c.female <= c.total
  {
    var s := UpdateStats(staff);
    DisjointCounts2(staff, IsMale, IsFemale);
    FullReportCounts(s.total, s.managers, s.administrative, s.scientists,
                     s.total - (s.managers + s.administrative + s.scientists),
                     CountIf(staff, IsMale), CountIf(staff, IsFemale))
  }

  /** The key `generateRoleReport` counts a record under: its role, or `'OTHER'` without one. */
  function RoleKey(s: StaffMember): string {
    if s.role == "" then "OTHER" else s.role
  }

  function RoleKeys(staff: seq<StaffMember>): (r: seq<string>)
    ensures |r| == |staff|
    ensures forall i :: 0 <= i < |staff| ==> r[i] == RoleKey(staff[i])
  {
    if staff == [] then [] else [RoleKey(staff[0])] + RoleKeys(staff[1..])
  }

  /**
   * The `roleCounts` object of `generateRoleReport`: one entry per distinct
   * role in first-occurrence order, a missing role counted as `'OTHER'` (so
   * no entry has an empty key), each count the number of records with that
   * key, and the counts adding up to the number of staff.
   */
  method CountRoles(staff: seq<StaffMember>) returns (roleCounts: CountTable)
    ensures KeysOf(roleCounts) == Distinct(RoleKeys(staff))
    ensures "" !in KeysOf(roleCounts)
    ensures forall i :: 0 <= i < |roleCounts| ==>
              roleCounts[i].1 == Occurrences(RoleKeys(staff), roleCounts[i].0) && roleCounts[i].1 >= 1
    ensures Total(roleCounts) == |staff|
    ensures staff == [] ==> roleCounts == []
  {
    roleCounts := CountByKey(RoleKeys(staff));
    DistinctMembers(RoleKeys(staff), "");
  }

  /** `count / total * 100` on exact rationals. */
  function Percent(count: nat, total: nat): real
    requires total > 0
  {
    (count as real) / (total as real) * 100.0
  }

  /** `Math.round(count / total * 100)`: a whole percentage, at most 100 for a part of the total. */
  function RoundedPercent(count: nat, total: nat): (p: int)
    requires total > 0
    ensures 0 <= p
    ensures count <= total ==> p <= 100
    ensures (p as real) <= Percent(count, total) + 0.5 < (p as real) + 1.0
  {
    PercentInRange(count, total);
    Round(Percent(count, total))
  }

  /** The summary line the role report prints for one entry. */
  function RoleLine(entry: (string, nat), total: nat): string
    requires total > 0
  {
    entry.0 + ": " + NatToString(entry.1) + " (" + NatToString(RoundedPercent(entry.1, total)) + "%)"
  }

  /**
   * The per-role summary lines, one per entry in the table's order; an
   * empty staff list has an empty table and so no lines at all.
   */
  function RoleLines(roleCounts: CountTable, total: nat): (lines: seq<string>)
    requires roleCounts == [] || total > 0
    ensures |lines| == |roleCounts|
    ensures forall i :: 0 <= i < |roleCounts| ==> lines[i] == RoleLine(roleCounts[i], total)
  {
    if roleCounts == [] then [] else [RoleLine(roleCounts[0], total)] + RoleLines(roleCounts[1..], total)
  }

  // ---------------------------------------------------------------- gender counts

  /** The counter a record goes to: its upper-cased gender if that is MALE or FEMALE, else OTHER. */
  function GenderBucket(s: StaffMember): string {
    var g := if s.gender == "" then "OTHER" else Upper(s.gender);
    if g == "MALE" || g == "FEMALE" then g else "OTHER"
  }

  predicate InMale(s: StaffMember) { GenderBucket(s) == "MALE" }
  predicate InFemale(s: StaffMember) { GenderBucket(s) == "FEMALE" }
  predicate InOther(s: StaffMember) { GenderBucket(s) == "OTHER" }

  datatype GenderCounts = GenderCounts(male: nat, female: nat, other: nat)

  /**
   * The `genderCounts` loop of `generateGenderReport`: each record adds one
   * to exactly one counter, so the three add up to the number of staff.
   */
  method CountGenders(staff: seq<StaffMember>) returns (c: GenderCounts)
    ensures c == GenderCountsOf(staff)
    ensures c.male + c.female + c.other == |staff|
  {
    c := GenderCounts(0, 0, 0);
    var i := 0;
    while i < |staff|
      invariant 0 <= i <= |staff|
      invariant c == GenderCountsOf(staff[..i])
    {
      var gender := if staff[i].gender == "" then "OTHER" else Upper(staff[i].gender);
      GenderStep(staff, i, gender);
      if gender == "MALE" {
        c := c.(male := c.male + 1);
      } else if gender == "FEMALE" {
        c := c.(female := c.female + 1);
      } else {
        c := c.(other := c.other + 1);
      }
      i := i + 1;
    }
    assert staff[..|staff|] == staff;
    GendersPartition(staff);
  }

  /** The three counters: how many records go to each. */
  function GenderCountsOf(staff: seq<StaffMember>): GenderCounts {
    GenderCounts(CountIf(staff, InMale), CountIf(staff, InFemale), CountIf(staff, InOther))
  }

  /** One pass of the loop: the record's upper-cased gender picks the one counter that grows. */
  lemma GenderStep(staff: seq<StaffMember>, i: nat, gender: string)
    requires i < |staff|
    requires gender == if staff[i].gender == "" then "OTHER" else Upper(staff[i].gender)
    ensures var c := GenderCountsOf(staff[..i]);
            GenderCountsOf(staff[..i + 1]) ==
              if gender == "MALE" then c.(male := c.male + 1)
              else if gender == "FEMALE" then c.(female := c.female + 1)
              else c.(other := c.other + 1)
  {
    var xs := staff[..i];
    var s := staff[i];
    assert staff[..i + 1] == xs + [s];
    CountIfSnoc(xs, s, InMale);
    CountIfSnoc(xs, s, InFemale);
    CountIfSnoc(xs, s, InOther);
  }

  /** Each record goes to exactly one counter, so the three add up to the number of staff. */
  lemma {:induction false} GendersPartition(staff: seq<StaffMember>)
    ensures GenderCountsOf(staff).male + GenderCountsOf(staff).female + GenderCountsOf(staff).other == |staff|
  {
    if staff != [] {
      GendersPartition(staff[1..]);
      assert CountIf(staff, InMale) == (if InMale(staff[0]) then 1 else 0) + CountIf(staff[1..], InMale);
      assert CountIf(staff, InFemale) == (if InFemale(staff[0]) then 1 else 0) + CountIf(staff[1..], InFemale);
      assert CountIf(staff, InOther) == (if InOther(staff[0]) then 1 else 0) + CountIf(staff[1..], InOther);
    }
  }

  /** `Math.round`: the nearest integer, halves rounded up. */
  function Round(x: real): int {
    (x + 0.5).Floor
  }

  /**
   * `calculateDiversityScore` on exact rationals: 0 for an empty staff;
   * otherwise, for gender counts that fit in the total, a score between 0
   * and 100.
   */
  function DiversityScore(male: nat, female: nat, total: nat): (score: int)
    ensures total == 0 ==> score == 0
    ensures male + female <= total ==> 0 <= score <= 100
  {
    if total == 0 then 0
    else
      var malePct := Percent(male, total);
      var femalePct := Percent(female, total);
      var maleScore := 50.0 - Abs(malePct - 50.0);
      var femaleScore := 50.0 - Abs(femalePct - 50.0);
      PercentInRange(male, total);
      PercentInRange(female, total);
      Round(maleScore + femaleScore)
  }

  function Abs(x: real): real {
    if x < 0.0 then -x else x
  }

  lemma PercentInRange(count: nat, total: nat)
    requires 0 < total
    ensures 0.0 <= Percent(count, total)
    ensures count <= total ==> Percent(count, total) <= 100.0
  {
    var q := (count as real) / (total as real);
    assert q * (total as real) == count as real;
  }

  /** An even male/female split scores the full 100. */
  lemma EvenSplitScoresFull(n: nat)
    requires n > 0
    ensures DiversityScore(n, n, 2 * n) == 100
  {
    assert (n as real) / ((2 * n) as real) == 0.5;
    assert Percent(n, 2 * n) == 50.0;
  }

  // ---------------------------------------------------------------- joining trends

  /** One year-over-year growth rate: `prev > 0 ? (cur - prev) / prev * 100 : 0`. */
  function Growth(prev: nat, cur: nat): (g: real)
    ensures prev == 0 ==> g == 0.0
    ensures g > 0.0 <==> prev > 0 && cur > prev
    ensures g < 0.0 <==> prev > 0 && cur < prev
    ensures g >= -100.0
  {
    if prev > 0 then
      GrowthSign(prev, cur);
      ((cur as real) - (prev as real)) / (prev as real) * 100.0
    else 0.0
  }

  lemma GrowthSign(prev: nat, cur: nat)
    requires prev > 0
    ensures var g := ((cur as real) - (prev as real)) / (prev as real) * 100.0;
            (g > 0.0 <==> cur > prev) && (g < 0.0 <==> cur < prev) && g >= -100.0
  {
    var q := ((cur as real) - (prev as real)) / (prev as real);
    assert q * (prev as real) == (cur as real) - (prev as real);
  }

  /**
   * The growth-rate loop of `generateJoiningReport`, over the yearly hire
   * counts in sorted-year order: one rate per consecutive pair of years, so
   * one fewer than there are years (none for zero or one year).
   */
  method GrowthRates(yearData: seq<nat>) returns (rates: seq<real>)
    ensures |rates| == if |yearData| == 0 then 0 else |yearData| - 1
    ensures forall i :: 0 <= i < |rates| ==> rates[i] == Growth(yearData[i], yearData[i + 1])
  {
    rates := [];
    var i := 1;
    while i < |yearData|
      invariant 1 <= i <= if |yearData| == 0 then 1 else |yearData|
      invariant |rates| == i - 1
      invariant forall k :: 0 <= k < |rates| ==> rates[k] == Growth(yearData[k], yearData[k + 1])
    {
      var prevYearCount := yearData[i - 1];
      var currentYearCount := yearData[i];
      var growthRate := if prevYearCount > 0
        then ((currentYearCount as real) - (prevYearCount as real)) / (prevYearCount as real) * 100.0
        else 0.0;
      rates := rates + [growthRate];
      i := i + 1;
    }
  }

  function Sum(xs: seq<real>): real {
    if xs == [] then 0.0 else xs[0] + Sum(xs[1..])
  }

  /** `calculateAverageGrowth` on exact rationals: 0 without rates, otherwise their mean. */
  function AverageGrowth(rates: seq<real>): (avg: real)
    ensures |rates| == 0 ==> avg == 0.0
    ensures |rates| > 0 ==> avg * (|rates| as real) == Sum(rates)
  {
    if |rates| == 0 then 0.0 else Sum(rates) / (|rates| as real)
  }

  lemma {:induction false} SumBounds(xs: seq<real>, lo: real, hi: real)
    requires forall i :: 0 <= i < |xs| ==> lo <= xs[i] <= hi
    ensures lo * (|xs| as real) <= Sum(xs) <= hi * (|xs| as real)
  {
    if xs != [] {
      SumBounds(xs[1..], lo, hi);
    }
  }

  /** The average lies between the smallest and the largest rate. */
  lemma AverageWithinBounds(rates: seq<real>, lo: real, hi: real)
    requires |rates| > 0
    requires forall i :: 0 <= i < |rates| ==> lo <= rates[i] <= hi
    ensures lo <= AverageGrowth(rates) <= hi
  {
    SumBounds(rates, lo, hi);
    var n := |rates| as real;
    var avg := AverageGrowth(rates);
    assert avg * n == Sum(rates);
  }

  /**
   * `findPeakYear` over the yearly counts in enumeration order: the year
   * with the most hires, the first one on a tie because the comparison is
   * strict; with no year over 0 (in particular with no year at all) it
   * prints a null year with 0 hires.
   */
  method FindPeakYear(yearCounts: CountTable) returns (text: string)
    ensures (forall i :: 0 <= i < |yearCounts| ==> yearCounts[i].1 == 0) ==> text == "null (0 hires)"
    ensures (exists i :: 0 <= i < |yearCounts| && yearCounts[i].1 > 0) ==>
              exists i :: 0 <= i < |yearCounts| && text == PeakText(yearCounts[i])
                && (forall j :: 0 <= j < |yearCounts| ==> yearCounts[j].1 <= yearCounts[i].1)
                && (forall j :: 0 <= j < i ==> yearCounts[j].1 < yearCounts[i].1)
  {
    var peakYear, peakCount := MostCommon(yearCounts);
    if peakYear.None? {
      text := "null (" + NatToString(peakCount) + " hires)";
    } else {
      text := peakYear.value + " (" + NatToString(peakCount) + " hires)";
    }
  }

  function PeakText(entry: (string, nat)): string {
    entry.0 + " (" + NatToString(entry.1) + " hires)"
  }

  // ---------------------------------------------------------------- CSV export

  /** The cells of a data row without the last (actions) column. */
  function DataCells(cols: seq<string>): (r: seq<string>)
    ensures |r| == if cols == [] then 0 else |cols| - 1
    ensures r <= cols
  {
    if cols == [] then [] else cols[..|cols| - 1]
  }

  /** A cell as exported: wrapped in double quotes when it contains a comma, inner quotes left as they are. */
  function QuoteCell(text: string): string {
    if ',' in text then "\"" + text + "\"" else text
  }

  function QuoteAll(cells: seq<string>): (r: seq<string>)
    ensures |r| == |cells|
    ensures forall i :: 0 <= i < |cells| ==> r[i] == QuoteCell(cells[i])
  {
    if cells == [] then [] else [QuoteCell(cells[0])] + QuoteAll(cells[1..])
  }

  /** One exported data line. */
  function CsvRow(cols: seq<string>): string {
    Join(QuoteAll(DataCells(cols)), ",")
  }

  /**
   * The lines of the exported file: the header texts joined by commas, then
   * one line for each table row after the first (the header row).
   */
  function CsvLines(headers: seq<string>, rows: seq<seq<string>>): (ls: seq<string>)
    ensures |ls| == if rows == [] then 1 else |rows|
    ensures ls[0] == Join(headers, ",")
    ensures forall i :: 1 <= i < |rows| ==> ls[i] == CsvRow(rows[i])
  {
    [Join(headers, ",")] + DataLines(if rows == [] then [] else rows[1..])
  }

  function DataLines(rows: seq<seq<string>>): (ls: seq<string>)
    ensures |ls| == |rows|
    ensures forall i :: 0 <= i < |rows| ==> ls[i] == CsvRow(rows[i])
  {
    if rows == [] then [] else [CsvRow(rows[0])] + DataLines(rows[1..])
  }

  /**
   * `exportToCSV`: the header line, then for every row after the first the
   * quoted cells of all but its last column, each line ending in a line feed.
   */
  method ExportToCsv(headers: seq<string>, rows: seq<seq<string>>) returns (csvContent: string)
    ensures csvContent == Lines(CsvLines(headers, rows))
  {
    csvContent := "";
    csvContent := csvContent + Join(headers, ",") + "\n";
    var i := 1;
    while i < |rows|
      invariant 1 <= i <= if rows == [] then 1 else |rows|
      invariant csvContent == Lines(CsvPrefix(headers, rows, i))
    {
      var line := ExportRow(rows[i]);
      CsvPrefixStep(headers, rows, i);
      csvContent := csvContent + line + "\n";
      i := i + 1;
    }
    assert CsvPrefix(headers, rows, i) == CsvLines(headers, rows);
  }

  /** The header line and the data lines of the rows before row `i`. */
  function CsvPrefix(headers: seq<string>, rows: seq<seq<string>>, i: nat): seq<string>
    requires 1 <= i <= if rows == [] then 1 else |rows|
  {
    [Join(headers, ",")] + DataLines(if rows == [] then [] else rows[1..])[..i - 1]
  }

  lemma CsvPrefixStep(headers: seq<string>, rows: seq<seq<string>>, i: nat)
    requires 1 <= i < |rows|
    ensures Lines(CsvPrefix(headers, rows, i + 1)) == Lines(CsvPrefix(headers, rows, i)) + CsvRow(rows[i]) + "\n"
  {
    var d := DataLines(rows[1..]);
    assert rows[1..][i - 1] == rows[i];
    LinesPrefixStep(Join(headers, ","), d, i);
  }

  lemma LinesPrefixStep(h: string, d: seq<string>, i: nat)
    requires 1 <= i <= |d|
    ensures Lines([h] + d[..i]) == Lines([h] + d[..i - 1]) + d[i - 1] + "\n"
  {
    assert [h] + d[..i] == ([h] + d[..i - 1]) + [d[i - 1]];
    LinesSnoc([h] + d[..i - 1], d[i - 1]);
  }

  /** The inner loop of the export: every column but the last, quoted, joined by commas. */
  method ExportRow(cols: seq<string>) returns (line: string)
    ensures line == CsvRow(cols)
  {
    var row: seq<string> := [];
    var j := 0;
    while j < |cols| - 1
      invariant 0 <= j <= if cols == [] then 0 else |cols| - 1
      invariant row == QuoteAll(DataCells(cols)[..j])
    {
      var text := cols[j];
      text := if ',' in text then "\"" + text + "\"" else text;
      assert DataCells(cols)[..j + 1] == DataCells(cols)[..j] + [cols[j]];
      QuoteAllSnoc(DataCells(cols)[..j], cols[j]);
      row := row + [text];
      j := j + 1;
    }
    assert DataCells(cols)[..|DataCells(cols)|] == DataCells(cols);
    line := Join(row, ",");
  }

  lemma {:induction false} QuoteAllSnoc(cells: seq<string>, c: string)
    ensures QuoteAll(cells + [c]) == QuoteAll(cells) + [QuoteCell(c)]
  {
  }

  /** A cell is wrapped in quotes exactly when it holds a comma; otherwise it is exported as it is. */
  lemma QuotedIffComma(text: string)
    ensures QuoteCell(text) == "\"" + text + "\"" <==> ',' in text
    ensures ',' !in text ==> QuoteCell(text) == text
  {
    if ',' !in text {
      assert |"\"" + text + "\""| != |text|;
    }
  }

  /**
   * Reading the export back: with no line feed in any text, the file splits
   * into its header line and one line per data row; a data line with no
   * comma in its cells splits back into exactly the exported cells.
   */
  lemma CsvReadsBack(headers: seq<string>, rows: seq<seq<string>>)
    requires forall k :: 0 <= k < |headers| ==> '\n' !in headers[k]
    requires forall r, k :: 0 <= r < |rows| && 0 <= k < |rows[r]| ==> '\n' !in rows[r][k]
    ensures Split(Lines(CsvLines(headers, rows)), '\n') == CsvLines(headers, rows) + [""]
  {
    var ls := CsvLines(headers, rows);
    forall k | 0 <= k < |ls| ensures '\n' !in ls[k] {
      if k == 0 {
        JoinFree(headers, ",", '\n');
      } else {
        RowLineFree(rows[k]);
      }
    }
    SplitLines(ls);
  }

  /** A data line of cells without a line feed has none. */
  lemma RowLineFree(cols: seq<string>)
    requires forall k :: 0 <= k < |cols| ==> '\n' !in cols[k]
    ensures '\n' !in CsvRow(cols)
  {
    var cells := QuoteAll(DataCells(cols));
    forall m | 0 <= m < |cells| ensures '\n' !in cells[m] {
      assert DataCells(cols)[m] == cols[m];
      QuoteCellFree(cols[m]);
    }
    JoinFree(cells, ",", '\n');
  }

  lemma QuoteCellFree(text: string)
    requires '\n' !in text
    ensures '\n' !in QuoteCell(text)
  {
    if ',' in text {
      assert QuoteCell(text) == "\"" + text + "\"";
    }
  }

  lemma CsvRowReadsBack(cols: seq<string>)
    requires cols != []
    requires forall k :: 0 <= k < |cols| - 1 ==> ',' !in cols[k]
    ensures |cols| >= 2 ==> Split(CsvRow(cols), ',') == cols[..|cols| - 1]
  {
    var cells := DataCells(cols);
    forall k | 0 <= k < |cells| ensures QuoteCell(cells[k]) == cells[k] {
      assert cells[k] == cols[k];
    }
    assert QuoteAll(cells) == cells;
    if |cols| >= 2 {
      SplitJoin(cells, ',');
    }
  }

  // ---------------------------------------------------------------- submit

  /** The staff form as the submit handler reads it. */
  datatype StaffForm = StaffForm(
    staffIdInput: string, formStaffId: string, firstName: string, lastName: string,
    designation: string, gender: string, joinedDate: string, dob: string, address: string,
    contactNo: string, email: string, role: string, logCode: string)

  /** The DTO `handleFormSubmit` builds, its id taken from the id input. */
  function StaffData(f: StaffForm): StaffMember {
    StaffMember(f.staffIdInput, f.firstName, f.lastName, f.designation, f.gender, f.joinedDate,
                f.dob, f.address, f.contactNo, f.email, f.role, f.logCode)
  }

  /**
   * The request `handleFormSubmit` sends. In edit mode (`editMode` is the
   * string `'true'`) it PUTs to the id taken from the form, and the body's
   * id is forced to that same id; otherwise it POSTs the DTO to the base URL.
   * No field is validated on the client.
   */
  function SubmitRequest(editMode: string, f: StaffForm): (r: Request<StaffMember>)
    ensures editMode == "true" ==> r.verb == PUT && r.url == Api + "/" + r.body.staffId
                                   && r.body == StaffData(f).(staffId := f.formStaffId)
    ensures editMode != "true" ==> r.verb == POST && r.url == Api && r.body == StaffData(f)
  {
    if editMode == "true" then
      Request(PUT, Api + "/" + f.formStaffId, StaffData(f).(staffId := f.formStaffId))
    else
      Request(POST, Api, StaffData(f))
  }

  /**
   * What the user sees after the request: success exactly when a status in
   * 200..299 came back; otherwise the error names the failed operation and
   * carries the server's text, or the failure's own message.
   */
  function SubmitNotice(isEdit: bool, response: Response): (n: Notice)
    ensures n.Success? <==> response.Status? && Ok(response.code)
    ensures n.Success? ==> n.text == (if isEdit then "Staff updated successfully" else "Staff created successfully")
    ensures response.Status? && !Ok(response.code) ==>
              n == Error("Failed to save staff data: " + FailureText(isEdit, response.text))
    ensures response.NetworkError? ==> n == Error("Failed to save staff data: " + response.message)
  {
    match response
    case Status(code, text) =>
      if Ok(code) then Success(if isEdit then "Staff updated successfully" else "Staff created successfully")
      else Error("Failed to save staff data: " + FailureText(isEdit, text))
    case NetworkError(message) => Error("Failed to save staff data: " + message)
  }

  /** The message of the error thrown for a status outside 200..299. */
  function FailureText(isEdit: bool, errorText: string): string {
    (if isEdit then "Failed to update staff: " else "Failed to create staff: ") + errorText
  }
}
