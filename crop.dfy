/**
 * The crop page: the multipart create/update submit with its image rule,
 * its status handling and the submit button's saving state, the statistics
 * cards (distinct active fields, the most common season), the season,
 * category and field reports with one image per group, the care
 * recommendation table, and the table search.
 */
module Crop {
  import opened TextOps
  import opened ListOps
  import opened Tally
  import opened Http
  import Rows

  const Api := "http://localhost:8080/api/v1/crop"

  /** A crop as the list endpoint returns it; a missing value, and a crop without an image, is the empty string. */
  datatype Crop = Crop(
    cropCode: string, commonName: string, scientificName: string, category: string,
    cropSeason: string, fieldCode: string, logCode: string, cropImage: string)

  // ---------------------------------------------------------------- submit

  /** The crop form: seven text inputs and the chosen image file, if any. */
  datatype CropForm = CropForm(
    cropCode: string, commonName: string, scientificName: string, category: string,
    season: string, fieldCode: string, logCode: string, imageFile: Option<string>)

  /** The names of the seven text parts, in the order they are appended. */
  const TextPartNames := ["cropCode", "commonName", "scientificName", "category", "cropSeason", "fieldCode", "logCode"]

  function TextValues(f: CropForm): (r: seq<string>)
    ensures |r| == 7
  {
    [f.cropCode, f.commonName, f.scientificName, f.category, f.season, f.fieldCode, f.logCode]
  }

  /** What the submit handler does: warn that an image is needed, or send the body. */
  datatype SubmitOutcome = ImageRequired(notice: Notice) | Send(request: Request<FormData>)

  const ImageWarning := Warning("Image Required", "Please select an image for the crop")

  /**
   * The submit handler up to the request: the seven text parts appended in
   * form order, then the image when one is chosen. Without an image a
   * create stops with a warning, while an update goes ahead without the
   * image part. An update is a PUT to the crop code, a create a POST to the
   * base URL.
   */
  method Submit(form: CropForm, editMode: string) returns (outcome: SubmitOutcome)
    ensures outcome.ImageRequired? <==> form.imageFile.None? && editMode != "true"
    ensures outcome.ImageRequired? ==> outcome.notice == ImageWarning
    ensures outcome.Send? ==> outcome.request.body == Body(form)
    ensures outcome.Send? ==> outcome.request.verb == (if editMode == "true" then PUT else POST)
    ensures outcome.Send? ==> outcome.request.url == (if editMode == "true" then Api + "/" + form.cropCode else Api)
  {
    var formData: FormData := [];
    var isEditMode := editMode == "true";
    var cropCode := form.cropCode;
    formData := formData + [("cropCode", Text(cropCode))];
    formData := formData + [("commonName", Text(form.commonName))];
    formData := formData + [("scientificName", Text(form.scientificName))];
    formData := formData + [("category", Text(form.category))];
    formData := formData + [("cropSeason", Text(form.season))];
    formData := formData + [("fieldCode", Text(form.fieldCode))];
    formData := formData + [("logCode", Text(form.logCode))];
    assert formData == TextParts(form);

    if form.imageFile.Some? {
      formData := formData + [("cropImage", File(form.imageFile.value))];
    } else if !isEditMode {
      outcome := ImageRequired(ImageWarning);
      return;
    }

    var url := if isEditMode then Api + "/" + cropCode else Api;
    var verb := if isEditMode then PUT else POST;
    outcome := Send(Request(verb, url, formData));
  }

  function TextParts(f: CropForm): FormData {
    [("cropCode", Text(f.cropCode)), ("commonName", Text(f.commonName)),
     ("scientificName", Text(f.scientificName)), ("category", Text(f.category)),
     ("cropSeason", Text(f.season)), ("fieldCode", Text(f.fieldCode)), ("logCode", Text(f.logCode))]
  }

  /** The multipart body: the text parts, then the image part when a file was chosen. */
  function Body(f: CropForm): FormData {
    TextParts(f) + (if f.imageFile.Some? then [("cropImage", File(f.imageFile.value))] else [])
  }

  /**
   * The body carries every text value under its own name, in form order,
   * and at most one image part, present exactly when a file was chosen and
   * carrying that file.
   */
  lemma BodyShape(f: CropForm)
    ensures PartNames(Body(f))[..7] == TextPartNames
    ensures forall i :: 0 <= i < 7 ==> Body(f)[i].1 == Text(TextValues(f)[i])
    ensures PartCount(Body(f), "cropImage") == if f.imageFile.Some? then 1 else 0
    ensures f.imageFile.Some? ==> |Body(f)| == 8 && Body(f)[7] == ("cropImage", File(f.imageFile.value))
    ensures f.imageFile.None? ==> |Body(f)| == 7
  {
    var tail: FormData := if f.imageFile.Some? then [("cropImage", File(f.imageFile.value))] else [];
    PartCountAppend(TextParts(f), tail, "cropImage");
    assert PartCount(TextParts(f), "cropImage") == 0 by {
      TextPartsCount(f);
    }
  }

  lemma TextPartsCount(f: CropForm)
    ensures PartCount(TextParts(f), "cropImage") == 0
  {
    var t := TextParts(f);
    assert PartCount(t[6..], "cropImage") == 0;
    assert PartCount(t[5..], "cropImage") == 0;
    assert PartCount(t[4..], "cropImage") == 0;
    assert PartCount(t[3..], "cropImage") == 0;
    assert PartCount(t[2..], "cropImage") == 0;
    assert PartCount(t[1..], "cropImage") == 0;
  }

  /**
   * The alert after the request. jQuery runs `success` for a 2xx or 304
   * status, and the handler then accepts only 201 and 204; `error` runs for
   * everything else and singles out 400. A failure before any status comes
   * to `error` with status 0.
   */
  function SubmitNotice(isEditMode: bool, response: Response): (n: Notice)
    ensures n.Success? <==> response.Status? && (response.code == 201 || response.code == 204)
    ensures n.Success? ==> n.text == if isEditMode then "Crop updated successfully!" else "Crop added successfully!"
    ensures n.Error? ==> n.text == if response.Status? && response.code == 400 then BadRequest else SaveFailed
    ensures !n.Warning?
  {
    var status := if response.Status? then response.code else 0;
    if AjaxSucceeds(status) then
      if status == 201 || status == 204 then
        Success(if isEditMode then "Crop updated successfully!" else "Crop added successfully!")
      else Error(SaveFailed)
    else if status == 400 then Error(BadRequest)
    else Error(SaveFailed)
  }

  const BadRequest := "Bad request. Please check your inputs."
  const SaveFailed := "Error saving crop"

  /** A plain 200 OK, which jQuery treats as success, is still reported as a failed save. */
  lemma OkIsNotAccepted(isEditMode: bool)
    ensures AjaxSucceeds(200) && SubmitNotice(isEditMode, Status(200, "")) == Error(SaveFailed)
  {
  }

  /** The submit button: its label and whether it is disabled. */
  class SubmitButton {
    var html: string
    var disabled: bool

    constructor (initialHtml: string)
      ensures html == initialHtml && !disabled
    {
      html := initialHtml;
      disabled := false;
    }

    /** Show the spinner and disable the button; the label it had is handed back. */
    method StartSaving() returns (originalText: string)
      modifies this
      ensures originalText == old(html)
      ensures html == Saving && disabled
    {
      originalText := html;
      html := Saving;
      disabled := true;
    }

    /** The `complete` callback: restore the label and enable the button. */
    method Complete(originalText: string)
      modifies this
      ensures html == originalText && !disabled
    {
      html := originalText;
      disabled := false;
    }
  }

  const Saving := "<i class=\"fas fa-spinner fa-spin\"></i> Saving..."

  /**
   * A whole submit with its button: a create without an image leaves the
   * button alone; any request that is sent ends, whatever its response,
   * with the button showing its original label and enabled again.
   */
  method SubmitWithButton(button: SubmitButton, form: CropForm, editMode: string, response: Response)
    returns (notice: Notice)
    modifies button
    ensures form.imageFile.None? && editMode != "true" ==>
              notice == ImageWarning && button.html == old(button.html) && button.disabled == old(button.disabled)
    ensures !(form.imageFile.None? && editMode != "true") ==>
              notice == SubmitNotice(editMode == "true", response) && button.html == old(button.html) && !button.disabled
  {
    var outcome := Submit(form, editMode);
    if outcome.ImageRequired? {
      notice := outcome.notice;
      return;
    }
    var originalText := button.StartSaving();
    notice := SubmitNotice(editMode == "true", response);
    button.Complete(originalText);
  }

  // ---------------------------------------------------------------- cards

  /** The distinct non-empty field codes of the crops (`fieldSet`). */
  function FieldSet(crops: seq<Crop>): set<string> {
    if crops == [] then {}
    else
      var last := crops[|crops| - 1];
      FieldSet(crops[..|crops| - 1]) + (if last.fieldCode != "" then {last.fieldCode} else {})
  }

  /** The crops' non-empty seasons, in list order: the keys `seasonCount` counts. */
  function SeasonKeys(crops: seq<Crop>): seq<string> {
    if crops == [] then []
    else
      var last := crops[|crops| - 1];
      SeasonKeys(crops[..|crops| - 1]) + (if last.cropSeason != "" then [last.cropSeason] else [])
  }

  /**
   * `updateStats`: the number of crops, the number of distinct non-empty
   * field codes (never more than the crops), and the current season: the
   * season counted most often, the first seen among equal counts, or `N/A`
   * when no crop has a season (in particular for no crops).
   */
  method UpdateStats(crops: seq<Crop>) returns (total: nat, activeFields: nat, currentSeason: string)
    ensures total == |crops|
    ensures activeFields == |FieldSet(crops)| && activeFields <= |crops|
    ensures SeasonKeys(crops) == [] ==> currentSeason == "N/A"
    ensures SeasonKeys(crops) != [] ==> IsCurrentSeason(SeasonKeys(crops), currentSeason)
  {
    total := |crops|;

    var fieldSet: set<string> := {};
    var i := 0;
    while i < |crops|
      invariant 0 <= i <= |crops|
      invariant fieldSet == FieldSet(crops[..i])
    {
      assert crops[..i + 1][..i] == crops[..i];
      if crops[i].fieldCode != "" {
        fieldSet := fieldSet + {crops[i].fieldCode};
      }
      i := i + 1;
    }
    assert crops[..i] == crops;
    FieldSetBound(crops);
    activeFields := |fieldSet|;

    if |crops| > 0 {
      var seasons := SeasonKeys(crops);
      var seasonCount := CountByKey(seasons);
      var best, maxCount := MostCommon(seasonCount);
      var mostCommonSeason := if best.Some? then best.value else "";
      currentSeason := if mostCommonSeason != "" then mostCommonSeason else "N/A";
      SeasonKeysNonEmpty(crops);
      if seasons != [] {
        MostCommonSeason(seasons, best, maxCount);
      }
    } else {
      currentSeason := "N/A";
    }
  }

  /**
   * `s` is the season the card shows for the counted seasons: one of them,
   * counted at least as often as every other, and counted more often than
   * every season seen before it.
   */
  predicate IsCurrentSeason(seasons: seq<string>, s: string) {
    exists i :: 0 <= i < |Distinct(seasons)| && Distinct(seasons)[i] == s
      && (forall j :: 0 <= j < |Distinct(seasons)| ==> Occurrences(seasons, Distinct(seasons)[j]) <= Occurrences(seasons, s))
      && (forall j :: 0 <= j < i ==> Occurrences(seasons, Distinct(seasons)[j]) < Occurrences(seasons, s))
  }

  /** What the running maximum finds in the season counts, read back in terms of the seasons. */
  lemma MostCommonSeason(seasons: seq<string>, best: Option<string>, bestCount: nat)
    requires seasons != [] && "" !in seasons
    requires forall i :: 0 <= i < |Tally.Tally(seasons)| ==> Tally.Tally(seasons)[i].1 <= bestCount
    requires best.None? ==> bestCount == 0
    requires best.Some? ==> exists i :: 0 <= i < |Tally.Tally(seasons)| && Tally.Tally(seasons)[i].0 == best.value
                                        && Tally.Tally(seasons)[i].1 == bestCount
                                        && bestCount > 0 && forall j :: 0 <= j < i ==> Tally.Tally(seasons)[j].1 < bestCount
    ensures best.Some? && best.value != "" && IsCurrentSeason(seasons, best.value)
  {
    var t := Tally.Tally(seasons);
    TallyCorrect(seasons);
    DistinctMembers(seasons, seasons[0]);
    assert |t| > 0 && t[0].1 >= 1;
    var i :| 0 <= i < |t| && t[i].0 == best.value && t[i].1 == bestCount
             && forall j :: 0 <= j < i ==> t[j].1 < bestCount;
    DistinctMembers(seasons, best.value);
    CurrentSeasonAt(seasons, i);
  }

  lemma CurrentSeasonAt(seasons: seq<string>, i: nat)
    requires i < |Tally.Tally(seasons)|
    requires forall j :: 0 <= j < |Tally.Tally(seasons)| ==> Tally.Tally(seasons)[j].1 <= Tally.Tally(seasons)[i].1
    requires forall j :: 0 <= j < i ==> Tally.Tally(seasons)[j].1 < Tally.Tally(seasons)[i].1
    ensures IsCurrentSeason(seasons, Tally.Tally(seasons)[i].0)
  {
    var t := Tally.Tally(seasons);
    TallyCorrect(seasons);
    var d := Distinct(seasons);
    assert forall j :: 0 <= j < |d| ==> d[j] == t[j].0 && Occurrences(seasons, d[j]) == t[j].1;
  }

  lemma {:induction false} FieldSetBound(crops: seq<Crop>)
    ensures |FieldSet(crops)| <= |crops|
  {
    if crops != [] {
      FieldSetBound(crops[..|crops| - 1]);
    }
  }

  /** A code is an active field exactly when some crop has it as its non-empty field code. */
  lemma {:induction false} FieldSetMembers(crops: seq<Crop>, f: string)
    ensures f in FieldSet(crops) <==> f != "" && exists i :: 0 <= i < |crops| && crops[i].fieldCode == f
  {
    if crops != [] {
      var init := crops[..|crops| - 1];
      FieldSetMembers(init, f);
      if f in FieldSet(init) {
        var i :| 0 <= i < |init| && init[i].fieldCode == f;
        assert crops[i] == init[i];
      }
      if f != "" && (exists i :: 0 <= i < |crops| && crops[i].fieldCode == f) {
        var i :| 0 <= i < |crops| && crops[i].fieldCode == f;
        if i < |init| {
          assert init[i] == crops[i];
        }
      }
    }
  }

  /** Every counted season is a non-empty season of some crop. */
  lemma {:induction false} SeasonKeysNonEmpty(crops: seq<Crop>)
    ensures "" !in SeasonKeys(crops)
    ensures |SeasonKeys(crops)| <= |crops|
  {
    if crops != [] {
      SeasonKeysNonEmpty(crops[..|crops| - 1]);
    }
  }

  // ---------------------------------------------------------------- reports

  /** The key a report groups by. */
  datatype GroupBy = BySeason | ByCategory | ByField

  function Key(c: Crop, g: GroupBy): string {
    match g
    case BySeason => c.cropSeason
    case ByCategory => c.category
    case ByField => c.fieldCode
  }

  /** The non-empty keys of the crops, in list order. */
  function GroupKeys(crops: seq<Crop>, g: GroupBy): seq<string> {
    if crops == [] then []
    else
      var last := crops[|crops| - 1];
      GroupKeys(crops[..|crops| - 1], g) + (if Key(last, g) != "" then [Key(last, g)] else [])
  }

  /** The image of the first crop in the group `k` that has one. */
  function FirstImage(crops: seq<Crop>, g: GroupBy, k: string): Option<string> {
    if crops == [] then None
    else if Key(crops[0], g) == k && crops[0].cropImage != "" then Some(crops[0].cropImage)
    else FirstImage(crops[1..], g, k)
  }

  /** The images map one pass builds: a group gets the image of its first crop that has one. */
  function Images(crops: seq<Crop>, g: GroupBy): map<string, string> {
    if crops == [] then map[]
    else
      var m := Images(crops[..|crops| - 1], g);
      var last := crops[|crops| - 1];
      if Key(last, g) != "" && last.cropImage != "" && Key(last, g) !in m then m[Key(last, g) := last.cropImage] else m
  }

  /**
   * The season, category and field reports: the counts of the crops with a
   * non-empty key, in first-occurrence order, and the image kept per group.
   */
  method GroupReport(crops: seq<Crop>, g: GroupBy) returns (counts: CountTable, images: map<string, string>)
    ensures counts == Tally.Tally(GroupKeys(crops, g))
    ensures images == Images(crops, g)
  {
    counts, images := [], map[];
    var i := 0;
    while i < |crops|
      invariant 0 <= i <= |crops|
      invariant counts == Tally.Tally(GroupKeys(crops[..i], g))
      invariant images == Images(crops[..i], g)
    {
      var crop := crops[i];
      GroupStep(crops, i, g);
      var key := Key(crop, g);
      if key != "" {
        counts := Bump(counts, key);
        if crop.cropImage != "" && key !in images {
          images := images[key := crop.cropImage];
        }
      }
      i := i + 1;
    }
    assert crops[..i] == crops;
  }

  /** One pass of the report loop: the next crop bumps its group and may give it its image. */
  lemma GroupStep(crops: seq<Crop>, i: nat, g: GroupBy)
    requires i < |crops|
    ensures var key := Key(crops[i], g);
            Tally.Tally(GroupKeys(crops[..i + 1], g))
              == if key != "" then Bump(Tally.Tally(GroupKeys(crops[..i], g)), key) else Tally.Tally(GroupKeys(crops[..i], g))
    ensures var key := Key(crops[i], g);
            var m := Images(crops[..i], g);
            Images(crops[..i + 1], g) == if key != "" && crops[i].cropImage != "" && key !in m then m[key := crops[i].cropImage] else m
  {
    var c := crops[i];
    assert crops[..i + 1] == crops[..i] + [c];
    GroupKeysSnoc(crops[..i], c, g);
    var keys := GroupKeys(crops[..i], g);
    if Key(c, g) != "" {
      TallySnoc(keys, Key(c, g));
    } else {
      assert keys + [] == keys;
    }
  }

  lemma GroupKeysSnoc(crops: seq<Crop>, c: Crop, g: GroupBy)
    ensures GroupKeys(crops + [c], g) == GroupKeys(crops, g) + (if Key(c, g) != "" then [Key(c, g)] else [])
    ensures Images(crops + [c], g) == 
              var m := Images(crops, g);
              if Key(c, g) != "" && c.cropImage != "" && Key(c, g) !in m then m[Key(c, g) := c.cropImage] else m
  {
    assert (crops + [c])[..|crops|] == crops;
  }

  /**
   * A group has an image exactly when its key is non-empty and one of its
   * crops has an image, and the image kept is the first such crop's.
   */
  lemma {:induction false} ImagesAreFirst(crops: seq<Crop>, g: GroupBy, k: string)
    ensures k in Images(crops, g) <==> k != "" && FirstImage(crops, g, k).Some?
    ensures k in Images(crops, g) ==> Images(crops, g)[k] == FirstImage(crops, g, k).value
  {
    if crops != [] {
      var init := crops[..|crops| - 1];
      var last := crops[|crops| - 1];
      ImagesAreFirst(init, g, k);
      assert crops == init + [last];
      FirstImageSnoc(init, last, g, k);
    }
  }

  function ImageAfter(found: Option<string>, c: Crop, g: GroupBy, k: string): Option<string> {
    if found.Some? then found else if Key(c, g) == k && c.cropImage != "" then Some(c.cropImage) else None
  }

  lemma {:induction false} FirstImageSnoc(crops: seq<Crop>, c: Crop, g: GroupBy, k: string)
    ensures FirstImage(crops + [c], g, k) == ImageAfter(FirstImage(crops, g, k), c, g, k)
  {
    if crops == [] {
      assert FirstImage([c], g, k) == (if Key(c, g) == k && c.cropImage != "" then Some(c.cropImage) else FirstImage([], g, k));
    } else {
      assert (crops + [c])[0] == crops[0];
      assert (crops + [c])[1..] == crops[1..] + [c];
      FirstImageSnoc(crops[1..], c, g, k);
    }
  }

  /**
   * The image kept for a group belongs to a crop of that group, and every
   * crop of the group before it has no image.
   */
  lemma {:induction false} FirstImageIsFirst(crops: seq<Crop>, g: GroupBy, k: string)
    ensures FirstImage(crops, g, k).Some? ==>
              exists i :: 0 <= i < |crops| && Key(crops[i], g) == k && crops[i].cropImage == FirstImage(crops, g, k).value
                && crops[i].cropImage != ""
                && forall j :: 0 <= j < i ==> !(Key(crops[j], g) == k && crops[j].cropImage != "")
    ensures FirstImage(crops, g, k).None? ==>
              forall i :: 0 <= i < |crops| ==> !(Key(crops[i], g) == k && crops[i].cropImage != "")
  {
    if crops != [] && !(Key(crops[0], g) == k && crops[0].cropImage != "") {
      FirstImageIsFirst(crops[1..], g, k);
      if FirstImage(crops, g, k).Some? {
        var i :| 0 <= i < |crops[1..]| && Key(crops[1..][i], g) == k && crops[1..][i].cropImage == FirstImage(crops, g, k).value
                  && crops[1..][i].cropImage != ""
                  && forall j :: 0 <= j < i ==> !(Key(crops[1..][j], g) == k && crops[1..][j].cropImage != "");
        assert crops[i + 1] == crops[1..][i];
        forall j | 0 <= j < i + 1 ensures !(Key(crops[j], g) == k && crops[j].cropImage != "") {
          if j > 0 {
            assert crops[j] == crops[1..][j - 1];
          }
        }
      } else {
        forall i | 0 <= i < |crops| ensures !(Key(crops[i], g) == k && crops[i].cropImage != "") {
          if i > 0 {
            assert crops[i] == crops[1..][i - 1];
          }
        }
      }
    }
  }

  /** Records without the key are skipped, and only the groups that exist get an image. */
  lemma {:induction false} GroupKeysSkipEmpty(crops: seq<Crop>, g: GroupBy)
    ensures "" !in GroupKeys(crops, g)
    ensures |GroupKeys(crops, g)| <= |crops|
  {
    if crops != [] {
      GroupKeysSkipEmpty(crops[..|crops| - 1], g);
    }
  }

  /** A group has an image only if it is a group of the report, that is, some crop has its (non-empty) key. */
  lemma ImagesOnlyForGroups(crops: seq<Crop>, g: GroupBy, k: string)
    requires k != "" && FirstImage(crops, g, k).Some?
    ensures k in Distinct(GroupKeys(crops, g))
  {
    FirstImageIsFirst(crops, g, k);
    var i :| 0 <= i < |crops| && Key(crops[i], g) == k && crops[i].cropImage != "";
    GroupKeysHave(crops, g, i);
    DistinctMembers(GroupKeys(crops, g), k);
  }

  lemma {:induction false} GroupKeysHave(crops: seq<Crop>, g: GroupBy, i: nat)
    requires i < |crops| && Key(crops[i], g) != ""
    ensures Key(crops[i], g) in GroupKeys(crops, g)
  {
    if i < |crops| - 1 {
      GroupKeysHave(crops[..|crops| - 1], g, i);
      assert crops[..|crops| - 1][i] == crops[i];
    }
  }

  // ---------------------------------------------------------------- recommendations

  const Categories := ["Cereal", "Vegetable", "Fruit", "Legume", "Other"]
  const Seasons := ["Spring", "Summer", "Fall", "Winter", "All Season"]

  /** The care advice per category (rows, in `Categories` order) and season (columns, in `Seasons` order). */
  const Recommendations: seq<seq<string>> := [
      // Cereal
      ["Plant in well-drained soil with full sun. Requires regular watering during growth period.",
       "Ensure adequate irrigation during hot months. Monitor for pests.",
       "Harvest before first frost. Store in dry conditions.",
       "Most cereals are not grown in winter. Consider winter wheat varieties.",
       "Can be grown year-round in controlled environments with proper care."],
      // Vegetable
      ["Ideal planting time for most vegetables. Ensure soil is warm enough.",
       "Provide shade during hottest parts of day. Water regularly.",
       "Plant cool-season vegetables. Protect from early frosts.",
       "Grow cold-hardy varieties or use greenhouses for protection.",
       "Succession planting recommended for continuous harvest."],
      // Fruit
      ["Prune before new growth appears. Monitor for flowering and pollination.",
       "Ensure consistent watering for fruit development. Protect from extreme heat.",
       "Harvest mature fruits. Prepare plants for winter dormancy.",
       "Most fruits are dormant. Prune during this period.",
       "Evergreen varieties can produce year-round in suitable climates."],
      // Legume
      ["Plant after last frost. Legumes fix nitrogen in soil.",
       "Provide support for climbing varieties. Harvest regularly.",
       "Plant for late harvest. Some varieties tolerate light frost.",
       "Not typically grown in winter unless in mild climates.",
       "Can be grown in succession for continuous harvest."],
      // Other
      ["Follow specific growing instructions for this crop type.",
       "Monitor for heat stress. Provide adequate water.",
       "Prepare for harvest or overwintering as appropriate.",
       "Most special crops require protection or indoor growing.",
       "Consult specific growing guides for year-round cultivation."]
    ]

  const GeneralCare := "General care: Ensure proper soil conditions, adequate water, and appropriate sunlight for this crop type."

  /** The table is five rows of five entries, each a text shorter than the general advice. */
  lemma TableShape()
    ensures |Recommendations| == 5
    ensures forall i :: 0 <= i < 5 ==> |Recommendations[i]| == 5
    ensures forall i, j :: 0 <= i < 5 && 0 <= j < 5 ==> 0 < |Recommendations[i][j]| < |GeneralCare|
  {
  }

  /** The entry of the table for the category and season at these positions: never empty, never the general advice. */
  function Entry(category: nat, season: nat): (r: string)
    requires category < 5 && season < 5
    ensures r != "" && r != GeneralCare
  {
    TableShape();
    Recommendations[category][season]
  }

  function IndexOf(xs: seq<string>, x: string): (i: nat)
    requires x in xs
    ensures i < |xs| && xs[i] == x
    ensures forall j :: 0 <= j < i ==> xs[j] != x
  {
    if xs[0] == x then 0 else 1 + IndexOf(xs[1..], x)
  }

  /** `recommendations[category]?.[season]`: the entry, if both keys are in the table. */
  function Lookup(category: string, season: string): Option<string> {
    if category in Categories && season in Seasons then
      Some(Entry(IndexOf(Categories, category), IndexOf(Seasons, season)))
    else None
  }

  /** `getCropRecommendations`: the entry, or the general advice when there is none or it is empty. */
  function CropRecommendations(category: string, season: string): (r: string)
    ensures r != ""
  {
    match Lookup(category, season)
    case Some(entry) => if entry != "" then entry else GeneralCare
    case None => GeneralCare
  }

  /**
   * A known category and season get their own entry of the table, never
   * the general advice; any other pair gets the general advice.
   */
  lemma RecommendationsFromTable(category: string, season: string)
    ensures category in Categories && season in Seasons ==>
              CropRecommendations(category, season) == Entry(IndexOf(Categories, category), IndexOf(Seasons, season))
    ensures CropRecommendations(category, season) == GeneralCare <==> !(category in Categories && season in Seasons)
  {
  }

  // ---------------------------------------------------------------- search

  /** The search box: a row stays visible exactly when its lower-cased text contains the lower-cased term. */
  method SearchCrops(rowTexts: seq<string>, searchTerm: string) returns (shown: seq<bool>)
    ensures |shown| == |rowTexts|
    ensures forall i :: 0 <= i < |rowTexts| ==> (shown[i] <==> Contains(Lower(rowTexts[i]), Lower(searchTerm)))
    ensures searchTerm == "" ==> forall i :: 0 <= i < |rowTexts| ==> shown[i]
  {
    shown := Rows.SearchRows(rowTexts, searchTerm);
    forall i | 0 <= i < |rowTexts| ensures searchTerm == "" ==> shown[i] {
      Rows.EmptySearchShowsAll(rowTexts[i]);
    }
  }
}
