/**
 * The monitoring-log page: text truncation for the table and cards, the
 * statistics cards, the multipart submit with its edit detection, image rule
 * and status handling, the search box over the loaded logs, and the guards
 * and counts of the report.
 */
module MonitoringLogs {
  import opened TextOps
  import opened ListOps
  import opened Http

  const Api := "http://localhost:8080/api/v1/logs"

  /** A monitoring log as the list endpoint returns it; a log without an image has the empty string. */
  datatype Log = Log(logCode: string, logDate: string, logDetails: string, observedImage: string)

  // ---------------------------------------------------------------- truncation

  /** `truncateText`: the text itself when it fits, else its first `maxLength` characters and an ellipsis. */
  function Truncate(text: string, maxLength: nat): (r: string)
    ensures |text| <= maxLength ==> r == text
    ensures |text| > maxLength ==> |r| == maxLength + 3 && r[..maxLength] == text[..maxLength] && r[maxLength..] == "..."
  {
    if |text| <= maxLength then text else text[..maxLength] + "..."
  }

  /** Truncated text never runs more than three characters past the limit and always begins like the original. */
  lemma TruncateBounds(text: string, maxLength: nat)
    ensures |Truncate(text, maxLength)| <= maxLength + 3
    ensures |Truncate(text, maxLength)| <= |text| || |text| > maxLength
    ensures var n := if |text| < maxLength then |text| else maxLength;
            Truncate(text, maxLength)[..n] == text[..n]
  {
  }

  /** Truncating twice with the same limit gives what truncating once gave. */
  lemma TruncateIdempotent(text: string, maxLength: nat)
    ensures Truncate(Truncate(text, maxLength), maxLength) == Truncate(text, maxLength)
  {
    var r := Truncate(text, maxLength);
    if |text| > maxLength {
      assert r[..maxLength] == text[..maxLength];
      assert r[..maxLength] + "..." == r;
    }
  }

  // ---------------------------------------------------------------- cards

  function DateTest(today: string): Log -> bool {
    (l: Log) => l.logDate == today
  }

  function ImageTest(): Log -> bool {
    (l: Log) => l.observedImage != ""
  }

  /** The three cards of `updateStats`. */
  datatype Stats = Stats(total: nat, todayLogs: nat, logsWithImages: nat)

  /**
   * `updateStats` for the fetched logs and today's date (the clock is an
   * input): today's logs and the logs with an image are counted among all of
   * them, so neither count exceeds the total.
   */
  function UpdateStats(logs: seq<Log>, today: string): (s: Stats)
    ensures s.total == |logs|
    ensures s.todayLogs <= s.total && s.logsWithImages <= s.total
  {
    Stats(|logs|, CountIf(logs, DateTest(today)), CountIf(logs, ImageTest()))
  }

  /**
   * The counts are exact: no log is dated today exactly when the card shows
   * 0, and every log has an image exactly when the image card equals the
   * total.
   */
  lemma StatsExact(logs: seq<Log>, today: string)
    ensures UpdateStats(logs, today).todayLogs == 0 <==> forall i :: 0 <= i < |logs| ==> logs[i].logDate != today
    ensures UpdateStats(logs, today).todayLogs == |logs| <==> forall i :: 0 <= i < |logs| ==> logs[i].logDate == today
    ensures UpdateStats(logs, today).logsWithImages == 0 <==> forall i :: 0 <= i < |logs| ==> logs[i].observedImage == ""
    ensures UpdateStats(logs, today).logsWithImages == |logs| <==> forall i :: 0 <= i < |logs| ==> logs[i].observedImage != ""
  {
    CountIfExtremes(logs, DateTest(today));
    CountIfExtremes(logs, ImageTest());
  }

  // ---------------------------------------------------------------- submit

  /** The log form: the hidden id (empty when adding), the three text inputs and the chosen image, if any. */
  datatype LogForm = LogForm(logId: string, logCode: string, logDate: string, logDetails: string, imageFile: Option<string>)

  /** What `handleFormSubmit` does: warn that an image is needed, or send the body. */
  datatype SubmitOutcome = ImageRequired(notice: Notice) | Send(request: Request<FormData>)

  const ImageWarning := Warning("Image Required", "Please select an image for the new log entry.")

  function TextParts(f: LogForm): FormData {
    [("logCode", Text(f.logCode)), ("logDate", Text(f.logDate)), ("logDetails", Text(f.logDetails))]
  }

  function ImagePart(f: LogForm): FormData {
    if f.imageFile.Some? then [("observedImage", File(f.imageFile.value))] else []
  }

  /** The form is an edit exactly when the hidden id holds something. */
  predicate IsEdit(f: LogForm) {
    f.logId != ""
  }

  /**
   * The body as the handler builds it: the text parts and the image when
   * one is chosen, and, on a create, the same image appended a second time.
   */
  function BodyAsWritten(f: LogForm): FormData {
    TextParts(f) + ImagePart(f) + (if IsEdit(f) then [] else ImagePart(f))
  }

  /**
   * `handleFormSubmit` up to the request: an edit PUTs to the hidden id
   * whether or not an image was chosen; a create without an image stops
   * with a warning, and otherwise POSTs to the base URL.
   */
  method HandleFormSubmit(form: LogForm) returns (outcome: SubmitOutcome)
    ensures outcome.ImageRequired? <==> !IsEdit(form) && form.imageFile.None?
    ensures outcome.ImageRequired? ==> outcome.notice == ImageWarning
    ensures outcome.Send? ==> outcome.request.body == BodyAsWritten(form)
    ensures outcome.Send? ==> outcome.request.verb == (if IsEdit(form) then PUT else POST)
    ensures outcome.Send? ==> outcome.request.url == (if IsEdit(form) then Api + "/" + form.logId else Api)
  {
    var formData: FormData := [];
    formData := formData + [("logCode", Text(form.logCode))];
    formData := formData + [("logDate", Text(form.logDate))];
    formData := formData + [("logDetails", Text(form.logDetails))];
    if form.imageFile.Some? {
      formData := formData + [("observedImage", File(form.imageFile.value))];
    }
    assert formData == TextParts(form) + ImagePart(form);

    var logId := form.logId;
    var isEdit := logId != "";
    if isEdit {
      outcome := Send(Request(PUT, Api + "/" + logId, formData));
    } else {
      if form.imageFile.None? {
        outcome := ImageRequired(ImageWarning);
        return;
      }
      formData := formData + [("observedImage", File(form.imageFile.value))];
      outcome := Send(Request(POST, Api, formData));
    }
  }

  /** A create with an image sends the image part twice. */
  lemma CreateSendsImageTwice(f: LogForm)
    requires !IsEdit(f) && f.imageFile.Some?
    ensures PartCount(BodyAsWritten(f), "observedImage") == 2
  {
    PartCountAppend(TextParts(f) + ImagePart(f), ImagePart(f), "observedImage");
    PartCountAppend(TextParts(f), ImagePart(f), "observedImage");
    TextPartsHaveNoImage(f);
  }

  /** The body the handler evidently means to send: the text parts, then the image once if one was chosen. */
  function IntendedBody(f: LogForm): FormData {
    TextParts(f) + ImagePart(f)
  }

  /**
   * The intended body carries one image part when a file was chosen and
   * none otherwise, on a create and on an edit alike, and differs from the
   * body as written only on a create.
   */
  lemma IntendedBodyHasOneImage(f: LogForm)
    ensures PartCount(IntendedBody(f), "observedImage") == if f.imageFile.Some? then 1 else 0
    ensures IsEdit(f) ==> IntendedBody(f) == BodyAsWritten(f)
  {
    PartCountAppend(TextParts(f), ImagePart(f), "observedImage");
    TextPartsHaveNoImage(f);
    if IsEdit(f) {
      assert BodyAsWritten(f) == IntendedBody(f) + [];
    }
  }

  lemma TextPartsHaveNoImage(f: LogForm)
    ensures PartCount(TextParts(f), "observedImage") == 0
  {
    var t := TextParts(f);
    assert PartCount(t[2..], "observedImage") == 0;
    assert PartCount(t[1..], "observedImage") == 0;
  }

  const BadRequest := "Bad request. Please check your input."

  /**
   * The dialog after `fetch` settles: only 201 is a success, titled by
   * whether it was an edit; 400 is a bad request; any other status is
   * reported with its number; a failed `fetch` reports its own message.
   */
  function SaveNotice(isEdit: bool, response: Response): (n: Notice)
    ensures n.Success? <==> response.Status? && response.code == 201
    ensures n.Success? ==> n.text == if isEdit then "Log Updated Successfully!" else "Log Created Successfully!"
    ensures response.Status? && response.code == 400 ==> n == Error(BadRequest)
    ensures response.Status? && response.code != 201 && response.code != 400 ==>
              n == Error("Server returned status: " + IntToString(response.code))
    ensures response.NetworkError? ==> n == Error(response.message)
  {
    match response
    case NetworkError(message) => Error(message)
    case Status(code, _) =>
      if code == 201 then Success(if isEdit then "Log Updated Successfully!" else "Log Created Successfully!")
      else if code == 400 then Error(BadRequest)
      else Error("Server returned status: " + IntToString(code))
  }

  /** A 200 or 204, which `fetch` reports as ok, is still shown as an error with its status. */
  lemma OkOtherThanCreatedIsError(isEdit: bool)
    ensures SaveNotice(isEdit, Status(200, "")).Error? && SaveNotice(isEdit, Status(204, "")).Error?
  {
  }

  // ---------------------------------------------------------------- search

  /** The test `performSearch` applies with an already trimmed and lower-cased term. */
  predicate LogMatches(l: Log, searchTerm: string) {
    Contains(Lower(l.logCode), searchTerm) || Contains(Lower(l.logDate), searchTerm)
    || Contains(Lower(l.logDetails), searchTerm)
  }

  function SearchTest(searchTerm: string): Log -> bool {
    (l: Log) => LogMatches(l, searchTerm)
  }

  /** The search box's text as `performSearch` uses it: trimmed, then lower-cased. */
  function SearchTerm(input: string): string {
    Lower(Trim(input))
  }

  /** The term is blank exactly when the box holds only white space. */
  lemma BlankTermIsWhiteSpace(input: string)
    ensures SearchTerm(input) == "" <==> AllSpace(input)
  {
    TrimEmptyIff(input);
  }

  /**
   * The search keeps, in their original order, exactly the logs whose code,
   * date or details contain the term case-insensitively, each as often as it
   * occurs.
   */
  lemma SearchKeepsExactlyMatches(allLogs: seq<Log>, searchTerm: string, l: Log)
    ensures IsSubsequence(Filter(allLogs, SearchTest(searchTerm)), allLogs)
    ensures l in Filter(allLogs, SearchTest(searchTerm)) <==> l in allLogs && LogMatches(l, searchTerm)
    ensures multiset(Filter(allLogs, SearchTest(searchTerm)))[l] == if LogMatches(l, searchTerm) then multiset(allLogs)[l] else 0
  {
    var p := SearchTest(searchTerm);
    FilterIsSubsequence(allLogs, p);
    FilterMembers(allLogs, p, l);
    FilterMultiplicity(allLogs, p, l);
  }

  // ---------------------------------------------------------------- reports

  /** `getDateRange`, with date parsing and locale formatting as inputs: `N/A` for no logs, else earliest to latest. */
  function DateRange(logs: seq<Log>, dayOf: string -> int, show: int -> string): (r: string)
    ensures logs == [] <==> r == "N/A"
    ensures logs != [] ==> r == show(MinOf(Days(logs, dayOf))) + " - " + show(MaxOf(Days(logs, dayOf)))
  {
    if logs == [] then "N/A"
    else
      var days := Days(logs, dayOf);
      var earliest := show(MinOf(days));
      var r := earliest + " - " + show(MaxOf(days));
      assert r[|earliest|] == ' ' && ' ' !in "N/A";
      r
  }

  /**
   * The range names the day of an earliest log `i` first and of a latest
   * log `j` last: every log's day lies between theirs.
   */
  lemma DateRangeSpans(logs: seq<Log>, dayOf: string -> int, show: int -> string) returns (i: nat, j: nat)
    requires logs != []
    ensures i < |logs| && j < |logs|
    ensures DateRange(logs, dayOf, show) == show(dayOf(logs[i].logDate)) + " - " + show(dayOf(logs[j].logDate))
    ensures forall k :: 0 <= k < |logs| ==> dayOf(logs[i].logDate) <= dayOf(logs[k].logDate) <= dayOf(logs[j].logDate)
  {
    var days := Days(logs, dayOf);
    i :| 0 <= i < |days| && days[i] == MinOf(days);
    j :| 0 <= j < |days| && days[j] == MaxOf(days);
  }

  function Days(logs: seq<Log>, dayOf: string -> int): (r: seq<int>)
    ensures |r| == |logs|
    ensures forall i :: 0 <= i < |logs| ==> r[i] == dayOf(logs[i].logDate)
  {
    if logs == [] then [] else [dayOf(logs[0].logDate)] + Days(logs[1..], dayOf)
  }

  /** `Math.min(...xs)` on a non-empty list: one of its values, and no value is smaller. */
  function MinOf(xs: seq<int>): (m: int)
    requires xs != []
    ensures m in xs && forall i :: 0 <= i < |xs| ==> m <= xs[i]
  {
    if |xs| == 1 then xs[0]
    else
      var rest := MinOf(xs[1..]);
      assert forall i :: 1 <= i < |xs| ==> xs[i] == xs[1..][i - 1];
      if xs[0] <= rest then xs[0] else rest
  }

  /** `Math.max(...xs)` on a non-empty list: one of its values, and no value is larger. */
  function MaxOf(xs: seq<int>): (m: int)
    requires xs != []
    ensures m in xs && forall i :: 0 <= i < |xs| ==> xs[i] <= m
  {
    if |xs| == 1 then xs[0]
    else
      var rest := MaxOf(xs[1..]);
      assert forall i :: 1 <= i < |xs| ==> xs[i] == xs[1..][i - 1];
      if xs[0] >= rest then xs[0] else rest
  }

  /** The figures of the current-view report. */
  datatype ViewReport = ViewReport(total: nat, withImages: nat, todayLogs: nat, gallery: seq<Log>, moreImages: nat)

  /**
   * The current-view report as written: the gallery block is guarded by
   * `logsWithImages.length > 0`, but `logsWithImages` is a number, whose
   * `length` is `undefined`, and `undefined > 0` is false.
   */
  function CurrentViewAsWritten(logs: seq<Log>, today: string): (r: ViewReport)
    ensures r.total == |logs| && r.withImages <= r.total && r.todayLogs <= r.total
    ensures r.gallery == [] && r.moreImages == 0
  {
    ViewReport(|logs|, CountIf(logs, ImageTest()), CountIf(logs, DateTest(today)), [], 0)
  }

  /** A view with an image still gets no gallery. */
  lemma GalleryNeverShown(logs: seq<Log>, today: string, i: nat)
    requires i < |logs| && logs[i].observedImage != ""
    ensures CurrentViewAsWritten(logs, today).withImages > 0 && CurrentViewAsWritten(logs, today).gallery == []
  {
    CountIfExtremes(logs, ImageTest());
  }

  /**
   * The current-view report as evidently intended: the gallery shows the
   * first six logs that have an image, and the note counts the ones beyond
   * six.
   */
  function CurrentView(logs: seq<Log>, today: string): (r: ViewReport)
    ensures r.total == |logs| && r.withImages <= r.total && r.todayLogs <= r.total
  {
    var logsWithImages := CountIf(logs, ImageTest());
    var list := Take(Filter(logs, ImageTest()), 6);
    ViewReport(|logs|, logsWithImages, CountIf(logs, DateTest(today)),
               if logsWithImages > 0 then list else [],
               if logsWithImages > 0 && logsWithImages > 6 then logsWithImages - 6 else 0)
  }

  /**
   * The gallery is shown exactly when some log in view has an image; it
   * holds at most six logs, each with an image and each in view, and with
   * the note it accounts for every log that has one.
   */
  lemma GalleryShowsImages(logs: seq<Log>, today: string)
    ensures CurrentView(logs, today).gallery != [] <==> exists i :: 0 <= i < |logs| && logs[i].observedImage != ""
    ensures |CurrentView(logs, today).gallery| <= 6
    ensures forall l :: l in CurrentView(logs, today).gallery ==> l in logs && l.observedImage != ""
    ensures CurrentView(logs, today).gallery != [] ==>
              |CurrentView(logs, today).gallery| + CurrentView(logs, today).moreImages == CurrentView(logs, today).withImages
  {
    var p := ImageTest();
    CountIfExtremes(logs, p);
    forall l | l in Take(Filter(logs, p), 6) ensures l in logs && l.observedImage != "" {
      FilterMembers(logs, p, l);
    }
  }

  /** What `generateReport` shows. */
  datatype ReportOutcome = NothingToReport(alert: string) | FullReport(total: nat, withImages: nat) | CurrentViewReport(view: ViewReport)

  // ---------------------------------------------------------------- the panel

  /** The page state: the logs last loaded or found (`currentLogs`) and the logs on screen. */
  class LogsPanel {
    var currentLogs: seq<Log>
    var displayed: seq<Log>

    constructor ()
      ensures currentLogs == [] && displayed == []
    {
      currentLogs := [];
      displayed := [];
    }

    /**
     * `loadLogs` with the response of the list endpoint and its body: an ok
     * response replaces and shows the logs; otherwise nothing changes and
     * the failure is reported.
     */
    method LoadLogs(response: Response, logs: seq<Log>) returns (notice: Option<Notice>)
      modifies this
      ensures response.Status? && Ok(response.code) ==> currentLogs == logs && displayed == logs && notice == None
      ensures !(response.Status? && Ok(response.code)) ==>
                currentLogs == old(currentLogs) && displayed == old(displayed) && notice == Some(Error(LoadFailure(response)))
    {
      if response.Status? && Ok(response.code) {
        currentLogs := logs;
        displayed := logs;
        notice := None;
      } else {
        notice := Some(Error(LoadFailure(response)));
      }
    }

    /**
     * `performSearch`: a blank term (after trimming) reloads every log; any
     * other term keeps, from a fresh list, the logs that match it, and shows
     * them. A failed fetch leaves the page as it was.
     */
    method PerformSearch(input: string, response: Response, allLogs: seq<Log>) returns (notice: Option<Notice>)
      modifies this
      ensures AllSpace(input) && response.Status? && Ok(response.code) ==> currentLogs == allLogs && displayed == allLogs
      ensures !AllSpace(input) && response.Status? && Ok(response.code) ==>
                currentLogs == Filter(allLogs, SearchTest(SearchTerm(input))) && displayed == currentLogs && notice == None
      ensures !(response.Status? && Ok(response.code)) ==>
                currentLogs == old(currentLogs) && displayed == old(displayed) && notice.Some? && notice.value.Error?
      ensures AllSpace(input) && !(response.Status? && Ok(response.code)) ==> notice == Some(Error(LoadFailure(response)))
      ensures !AllSpace(input) && !(response.Status? && Ok(response.code)) ==>
                notice == Some(Error("Error searching logs: " + LoadFailure(response)))
    {
      var searchTerm := Lower(Trim(input));
      BlankTermIsWhiteSpace(input);
      if searchTerm == "" {
        notice := LoadLogs(response, allLogs);
        return;
      }
      if !(response.Status? && Ok(response.code)) {
        notice := Some(Error("Error searching logs: " + LoadFailure(response)));
        return;
      }
      currentLogs := Filter(allLogs, SearchTest(searchTerm));
      displayed := currentLogs;
      notice := None;
    }

    /**
     * `generateReport`: nothing but an alert when there are no current
     * logs; otherwise the full report or, as written, the current-view
     * report without its gallery.
     */
    method GenerateReport(kind: string, today: string) returns (outcome: ReportOutcome)
      ensures currentLogs == [] <==> outcome.NothingToReport?
      ensures outcome.NothingToReport? ==> outcome.alert == "No logs to generate report"
      ensures currentLogs != [] && kind == "all" ==>
                outcome == FullReport(|currentLogs|, CountIf(currentLogs, ImageTest()))
      ensures currentLogs != [] && kind != "all" ==> outcome == CurrentViewReport(CurrentViewAsWritten(currentLogs, today))
    {
      var logsToReport := currentLogs;
      if |logsToReport| == 0 {
        outcome := NothingToReport("No logs to generate report");
        return;
      }
      if kind == "all" {
        outcome := FullReport(|logsToReport|, CountIf(logsToReport, ImageTest()));
      } else {
        outcome := CurrentViewReport(CurrentViewAsWritten(logsToReport, today));
      }
    }
  }

  /** The message of the error `loadLogs` catches: its own for a bad status, the transport's otherwise. */
  function LoadFailure(response: Response): string {
    if response.Status? then "Failed to fetch logs" else response.message
  }
}
