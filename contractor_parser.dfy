/** The detail-page step (`ContractorsParser`): for every record of a list,
    visit the record's URL, wait three times for the page to be ready, then
    write the project count, the business-detail cells and the rating and
    review count into the record itself.

    The browser is abstracted into a `Page`: what the detail page at a URL
    shows to each query the step makes. Python exceptions become a
    `ParseError`; because the step writes into the very dict that sits in
    the list, a failing step leaves behind whatever it had already written,
    and the model keeps that partly updated record beside the error. */
module ContractorParser {
  import opened Common
  import opened Text

  // ---------------------------------------------------------------------------
  // What a detail page shows

  /** The outcome of each of the three readiness waits: true when the
      "Pro Name" marker appeared within the timeout. */
  type Waits = s: seq<bool> | |s| == 3 witness [true, true, true]

  /** One ".hui-cell" element: the text of its "h3" and of its "p", None
      where the element has no such child (NoSuchElementException). */
  datatype Cell = Cell(key: Option<string>, value: Option<string>)
  {
    predicate WellFormed() { key.Some? && value.Some? }
  }

  datatype Page = Page(
    ready: Waits,
    /** The "#projects-label" text, None where the wait for it fails. */
    projectsLabel: Option<string>,
    /** The ".hui-cell" elements in document order. */
    cells: seq<Cell>,
    /** The aggregate-rating text, None where the wait for it times out. */
    rating: Option<string>,
    /** The review-number text, None where `find_element` finds nothing. */
    reviews: Option<string>)

  datatype ParseError =
    | MissingKey(key: string)       // KeyError on contractor[key]
    | NotNavigable(url: Value)      // the driver is given a URL that is not a string
    | NoDigitRun(text: string)      // IndexError: re.findall(r'\d+', text) is empty
    | RunTooLong(text: string)      // ValueError: int() refuses the first run of text as too long
    | NoReviewsElement              // NoSuchElementException, not caught
    | NotAFloat(text: string)       // ValueError from float(text)

  /** The exception `int(re.findall(r'\d+', text)[0])` raises. */
  function ReadError(text: string, e: IntError): (err: ParseError)
    ensures err.NoDigitRun? || err.RunTooLong?
    ensures e.NoDigits? <==> err == NoDigitRun(text)
  {
    match e
    case NoDigits => NoDigitRun(text)
    case TooManyDigits(_) => RunTooLong(text)
  }

  /** The keys the step itself writes, apart from the detail keys. */
  const PROJECT_COUNT := "project_count"
  const REVIEW_COUNT := "review_count"
  const RATING := "rating"

  // ---------------------------------------------------------------------------
  // The readiness loop

  /** The number of waits that timed out. */
  function Timeouts(ready: seq<bool>): (t: nat)
    ensures t <= |ready|
  {
    if |ready| == 0 then 0
    else Timeouts(ready[..|ready| - 1]) + (if ready[|ready| - 1] then 0 else 1)
  }

  /** The initial `driver.get(url)` and the `for _ in range(3)` loop: every
      wait runs, a success included, and every timed-out wait navigates to
      the same URL once more. The loop never raises. */
  method AwaitReady(url: string, ready: Waits) returns (visits: seq<string>)
    ensures |visits| == 1 + Timeouts(ready)
    ensures forall v :: v in visits ==> v == url
  {
    visits := [url];
    for i := 0 to 3
      invariant |visits| == 1 + Timeouts(ready[..i])
      invariant forall v :: v in visits ==> v == url
    {
      assert ready[..i + 1][..i] == ready[..i];
      if !ready[i] {
        visits := visits + [url];
      }
    }
    assert ready[..3] == ready;
  }

  /** The page is visited at least once and at most four times. */
  lemma VisitsBounded(ready: Waits)
    ensures 1 <= 1 + Timeouts(ready) <= 4
    ensures (forall i :: 0 <= i < 3 ==> ready[i]) ==> Timeouts(ready) == 0
    ensures (forall i :: 0 <= i < 3 ==> !ready[i]) ==> Timeouts(ready) == 3
  {
    assert ready[..1][..0] == [];
    assert Timeouts(ready[..1]) == Miss(ready[0]);
    assert ready[..2][..1] == ready[..1];
    assert Timeouts(ready[..2]) == Miss(ready[0]) + Miss(ready[1]);
    assert ready[..3][..2] == ready[..2];
    assert ready[..3] == ready;
  }

  /** A wait that timed out counts one. */
  function Miss(ok: bool): nat { if ok then 0 else 1 }

  // ---------------------------------------------------------------------------
  // The business-detail scan

  /** The index of the first malformed cell, or |cells| when all are well formed. */
  function FirstMalformed(cells: seq<Cell>): (m: nat)
    ensures m <= |cells|
    ensures forall i :: 0 <= i < m ==> cells[i].WellFormed()
    ensures m < |cells| ==> !cells[m].WellFormed()
  {
    if |cells| == 0 || !cells[0].WellFormed() then 0 else 1 + FirstMalformed(cells[1..])
  }

  predicate AllWellFormed(cells: seq<Cell>)
  {
    forall i :: 0 <= i < |cells| ==> cells[i].WellFormed()
  }

  /** `contractor[key] = value` for each of the given well-formed cells, in order. */
  function ApplyCells(rec: Record, cells: seq<Cell>): Record
    requires AllWellFormed(cells)
  {
    if |cells| == 0 then rec
    else
      var c := cells[|cells| - 1];
      ApplyCells(rec, cells[..|cells| - 1])[c.key.value := Text(c.value.value)]
  }

  /** The detail scan: the cells before the first malformed one are written,
      and the scan reads nothing after that one. */
  function ScanCells(rec: Record, cells: seq<Cell>): Record
  {
    ApplyCells(rec, cells[..FirstMalformed(cells)])
  }

  /** The value of the last cell among the given ones whose key is k. */
  function LastValueFor(cells: seq<Cell>, k: string): Option<string>
    requires AllWellFormed(cells)
  {
    if |cells| == 0 then None
    else if cells[|cells| - 1].key == Some(k) then cells[|cells| - 1].value
    else LastValueFor(cells[..|cells| - 1], k)
  }

  /** The keys of the given cells. */
  function CellKeys(cells: seq<Cell>): set<string>
    requires AllWellFormed(cells)
  {
    set i | 0 <= i < |cells| :: cells[i].key.value
  }

  /** Each key carries the value of the LAST cell that names it; keys no
      cell names keep their old value, whatever they are (name and url
      included). Nothing is removed. */
  lemma {:induction false} ApplyCellsAt(rec: Record, cells: seq<Cell>, k: string)
    requires AllWellFormed(cells)
    ensures LastValueFor(cells, k).Some? <==> k in CellKeys(cells)
    ensures k in ApplyCells(rec, cells) <==> k in rec || k in CellKeys(cells)
    ensures LastValueFor(cells, k).Some? ==>
              ApplyCells(rec, cells)[k] == Text(LastValueFor(cells, k).value)
    ensures LastValueFor(cells, k).None? && k in rec ==> ApplyCells(rec, cells)[k] == rec[k]
  {
    if |cells| > 0 {
      var n := |cells| - 1;
      ApplyCellsAt(rec, cells[..n], k);
      assert CellKeys(cells) == CellKeys(cells[..n]) + {cells[n].key.value} by {
        forall x | x in CellKeys(cells) ensures x in CellKeys(cells[..n]) + {cells[n].key.value} {
          var i :| 0 <= i < |cells| && cells[i].key.value == x;
          if i < n { assert cells[..n][i] == cells[i]; }
        }
        forall x | x in CellKeys(cells[..n]) ensures x in CellKeys(cells) {
          var i :| 0 <= i < n && cells[..n][i].key.value == x;
          assert cells[i] == cells[..n][i];
        }
      }
    }
  }

  /** The detail keys the scan writes. */
  function DetailKeys(cells: seq<Cell>): set<string>
  {
    CellKeys(cells[..FirstMalformed(cells)])
  }

  /** What the scan leaves at each key: the last well-formed cell before the
      first malformed one wins, other keys are as they were. */
  lemma ScanCellsAt(rec: Record, cells: seq<Cell>, k: string)
    ensures var r := ScanCells(rec, cells);
            var prefix := cells[..FirstMalformed(cells)];
            && (k in r <==> k in rec || k in DetailKeys(cells))
            && (k in DetailKeys(cells) ==>
                  LastValueFor(prefix, k).Some? && r[k] == Text(LastValueFor(prefix, k).value))
            && (k !in DetailKeys(cells) && k in rec ==> r[k] == rec[k])
  {
    ApplyCellsAt(rec, cells[..FirstMalformed(cells)], k);
  }

  /** The scan stops at the first malformed cell: whatever follows it, well
      formed or not, is never read. */
  lemma ScanStopsAtMalformed(rec: Record, cells: seq<Cell>, bad: Cell, rest: seq<Cell>)
    requires AllWellFormed(cells) && !bad.WellFormed()
    ensures ScanCells(rec, cells + [bad] + rest) == ApplyCells(rec, cells)
  {
    var all := cells + [bad] + rest;
    assert forall i :: 0 <= i < |cells| ==> all[i] == cells[i];
    assert all[|cells|] == bad;
    assert FirstMalformed(all) == |cells|;
    assert all[..|cells|] == cells;
  }

  /** The worked example: two well-formed cells and then a malformed one
      give exactly those two pairs, and a later well-formed cell is ignored. */
  lemma ScanExample()
    ensures ScanCells(map[], [Cell(Some("Year Founded"), Some("1998")),
                              Cell(Some("Employees"), Some("12")),
                              Cell(Some("Awards"), None),
                              Cell(Some("Late"), Some("x"))])
            == map["Year Founded" := Text("1998"), "Employees" := Text("12")]
  {
    var good := [Cell(Some("Year Founded"), Some("1998")), Cell(Some("Employees"), Some("12"))];
    ScanStopsAtMalformed(map[], good, Cell(Some("Awards"), None), [Cell(Some("Late"), Some("x"))]);
    assert good[..1] == [good[0]];
  }

  /** The scan loop: `for item in business_details`, reading the key and
      the value of each cell and breaking at the first cell that lacks one. */
  method ScanDetailCells(contractor: Record, cells: seq<Cell>) returns (r: Record)
    ensures r == ScanCells(contractor, cells)
  {
    r := contractor;
    for i := 0 to |cells|
      invariant AllWellFormed(cells[..i])
      invariant r == ApplyCells(contractor, cells[..i])
    {
      var item := cells[i];
      if item.key.None? || item.value.None? {
        assert FirstMalformed(cells) == i;
        return;
      }
      assert cells[..i + 1][..i] == cells[..i];
      r := r[item.key.value := Text(item.value.value)];
    }
    assert cells[..|cells|] == cells;
  }

  // ---------------------------------------------------------------------------
  // The whole step on one record, as a specification

  /** A record after a step, with the error the step raised, if any. */
  datatype Step = Step(record: Record, failure: Option<ParseError>)

  /** The projects block: a missing label is logged and skipped; a present
      label must contain a digit run; both branches read contractor["name"]
      for their log line. */
  function ProjectsStep(rec: Record, labelText: Option<string>): (s: Step)
    ensures rec.Keys <= s.record.Keys
    ensures forall k :: k != PROJECT_COUNT ==> (k in s.record <==> k in rec)
    ensures forall k :: k in rec && k != PROJECT_COUNT ==> s.record[k] == rec[k]
  {
    match labelText
    case None =>
      if "name" in rec then Step(rec, None) else Step(rec, Some(MissingKey("name")))
    case Some(text) =>
      match FirstInt(text)
      case Failure(e) => Step(rec, Some(ReadError(text, e)))
      case Success(n) =>
        var rec' := rec[PROJECT_COUNT := Int(n)];
        if "name" in rec' then Step(rec', None) else Step(rec', Some(MissingKey("name")))
  }

  /** The rating block: only a timed-out rating wait is caught. The review
      count is written before the rating is parsed. */
  function RatingStep(rec: Record, rating: Option<string>, reviews: Option<string>,
                      parseFloat: string -> Option<real>): (s: Step)
    ensures rating.None? ==> s == Step(rec, None)
    ensures rec.Keys <= s.record.Keys
    ensures forall k :: k != REVIEW_COUNT && k != RATING ==> (k in s.record <==> k in rec)
    ensures forall k :: k in rec && k != REVIEW_COUNT && k != RATING ==> s.record[k] == rec[k]
    ensures s.failure.Some? ==>
              || s.failure.value.NoReviewsElement? || s.failure.value.NoDigitRun?
              || s.failure.value.RunTooLong? || s.failure.value.NotAFloat?
  {
    match rating
    case None => Step(rec, None)
    case Some(ratingText) =>
      match reviews
      case None => Step(rec, Some(NoReviewsElement))
      case Some(reviewsText) =>
        match FirstInt(reviewsText)
        case Failure(e) => Step(rec, Some(ReadError(reviewsText, e)))
        case Success(n) =>
          var rec' := rec[REVIEW_COUNT := Int(n)];
          match parseFloat(ratingText)
          case None => Step(rec', Some(NotAFloat(ratingText)))
          case Some(x) => Step(rec'[RATING := Float(x)], None)
  }

  /** The outcome of `__parse_contractor` on one record: the record as the
      step leaves it, the URLs the driver was sent to, and the error raised. */
  datatype Outcome = Outcome(record: Record, visits: seq<string>, failure: Option<ParseError>)

  /** `__parse_contractor`, where `site` gives the page at each URL and
      `parseFloat` stands for Python's `float`. */
  function Enrich(rec: Record, site: string -> Page, parseFloat: string -> Option<real>): Outcome
  {
    if "url" !in rec then Outcome(rec, [], Some(MissingKey("url")))
    else if !rec["url"].Text? then Outcome(rec, [], Some(NotNavigable(rec["url"])))
    else
      var url := rec["url"].s;
      var page := site(url);
      var visits := seq(1 + Timeouts(page.ready), _ => url);
      var projects := ProjectsStep(rec, page.projectsLabel);
      if projects.failure.Some? then Outcome(projects.record, visits, projects.failure)
      else
        var scanned := ScanCells(projects.record, page.cells);
        var rated := RatingStep(scanned, page.rating, page.reviews, parseFloat);
        Outcome(rated.record, visits, rated.failure)
  }

  // ---------------------------------------------------------------------------
  // The step on one record, as the source runs it

  /** `__parse_contractor`: writes into its own copy of the record and
      returns it with the visited URLs and the error, if any. */
  method ParseContractor(contractor: Record, site: string -> Page,
                         parseFloat: string -> Option<real>)
    returns (r: Record, visits: seq<string>, failure: Option<ParseError>)
    ensures Outcome(r, visits, failure) == Enrich(contractor, site, parseFloat)
  {
    r, visits, failure := contractor, [], None;
    if "url" !in r {
      failure := Some(MissingKey("url"));
      return;
    }
    var url := r["url"];
    if !url.Text? {
      failure := Some(NotNavigable(url));
      return;
    }
    var page := site(url.s);
    visits := AwaitReady(url.s, page.ready);
    forall i | 0 <= i < |visits| ensures visits[i] == url.s {
      assert visits[i] in visits;
    }
    assert visits == seq(1 + Timeouts(page.ready), _ => url.s);

    match page.projectsLabel {
      case None =>
        if "name" !in r {
          failure := Some(MissingKey("name"));
          return;
        }
      case Some(text) =>
        var count := FirstInt(text);
        if count.Failure? {
          failure := Some(if count.error.NoDigits? then NoDigitRun(text) else RunTooLong(text));
          return;
        }
        r := r[PROJECT_COUNT := Int(count.value)];
        if "name" !in r {
          failure := Some(MissingKey("name"));
          return;
        }
    }

    r := ScanDetailCells(r, page.cells);

    if page.rating.Some? {
      if page.reviews.None? {
        failure := Some(NoReviewsElement);
        return;
      }
      var reviewCount := FirstInt(page.reviews.value);
      if reviewCount.Failure? {
        var text := page.reviews.value;
        failure := Some(if reviewCount.error.NoDigits? then NoDigitRun(text) else RunTooLong(text));
        return;
      }
      r := r[REVIEW_COUNT := Int(reviewCount.value)];
      var rating := parseFloat(page.rating.value);
      if rating.None? {
        failure := Some(NotAFloat(page.rating.value));
        return;
      }
      r := r[RATING := Float(rating.value)];
    }
  }

  // ---------------------------------------------------------------------------
  // What the step promises

  /** A record the step can work on: it has a string URL and a name. */
  predicate Visitable(rec: Record)
  {
    "url" in rec && rec["url"].Text? && "name" in rec
  }

  /** A projects label the projects block gets past: absent, or with digits. */
  predicate ProjectsReadable(labelText: Option<string>)
  {
    labelText.None? || FirstInt(labelText.value).Success?
  }

  /** The page the step sees for a visitable record. */
  function PageOf(rec: Record, site: string -> Page): Page
    requires "url" in rec && rec["url"].Text?
  {
    site(rec["url"].s)
  }

  /** The step fails before touching the page exactly when the URL or the
      name is missing, or the URL is not a string. */
  lemma EnrichKeyErrors(rec: Record, site: string -> Page, parseFloat: string -> Option<real>)
    ensures "url" !in rec ==> Enrich(rec, site, parseFloat) == Outcome(rec, [], Some(MissingKey("url")))
    ensures "url" in rec && !rec["url"].Text? ==> Enrich(rec, site, parseFloat).failure == Some(NotNavigable(rec["url"]))
    ensures "url" in rec && rec["url"].Text? && "name" !in rec ==>
              Enrich(rec, site, parseFloat).failure
              == if ProjectsReadable(PageOf(rec, site).projectsLabel) then Some(MissingKey("name"))
                 else Some(ReadError(PageOf(rec, site).projectsLabel.value,
                                     FirstInt(PageOf(rec, site).projectsLabel.value).error))
    ensures Visitable(rec) ==>
              && Enrich(rec, site, parseFloat).failure != Some(MissingKey("url"))
              && Enrich(rec, site, parseFloat).failure != Some(MissingKey("name"))
              && Enrich(rec, site, parseFloat).failure != Some(NotNavigable(rec["url"]))
  {
    if Visitable(rec) {
      var page := PageOf(rec, site);
      var projects := ProjectsStep(rec, page.projectsLabel);
      assert projects.failure.None? || projects.failure.value.NoDigitRun? || projects.failure.value.RunTooLong?;
      if projects.failure.None? {
        var scanned := ScanCells(projects.record, page.cells);
        var rated := RatingStep(scanned, page.rating, page.reviews, parseFloat);
        assert Enrich(rec, site, parseFloat).failure == rated.failure;
      } else {
        assert Enrich(rec, site, parseFloat).failure == projects.failure;
      }
    }
  }

  /** The detail page is visited once, and once more for each timed-out wait. */
  lemma EnrichVisits(rec: Record, site: string -> Page, parseFloat: string -> Option<real>)
    requires "url" in rec && rec["url"].Text?
    ensures var o := Enrich(rec, site, parseFloat);
            && |o.visits| == 1 + Timeouts(PageOf(rec, site).ready)
            && 1 <= |o.visits| <= 4
            && forall i :: 0 <= i < |o.visits| ==> o.visits[i] == rec["url"].s
  {
    VisitsBounded(PageOf(rec, site).ready);
  }

  /** With a projects label that holds digits, project_count is the value of
      its first digit run, unless a detail cell later names project_count. */
  lemma EnrichProjectCount(rec: Record, site: string -> Page, parseFloat: string -> Option<real>, n: nat)
    requires Visitable(rec)
    requires PageOf(rec, site).projectsLabel.Some?
    requires FirstInt(PageOf(rec, site).projectsLabel.value) == Success(n)
    requires PROJECT_COUNT !in DetailKeys(PageOf(rec, site).cells)
    ensures PROJECT_COUNT in Enrich(rec, site, parseFloat).record
    ensures Enrich(rec, site, parseFloat).record[PROJECT_COUNT] == Int(n)
  {
    var page := PageOf(rec, site);
    var projects := ProjectsStep(rec, page.projectsLabel);
    ScanCellsAt(projects.record, page.cells, PROJECT_COUNT);
  }

  /** A projects label without any digit fails the step, and the step has
      written nothing yet. */
  lemma EnrichProjectsWithoutDigits(rec: Record, site: string -> Page, parseFloat: string -> Option<real>)
    requires "url" in rec && rec["url"].Text?
    requires PageOf(rec, site).projectsLabel.Some?
    requires NoDigit(PageOf(rec, site).projectsLabel.value)
    ensures Enrich(rec, site, parseFloat).failure == Some(NoDigitRun(PageOf(rec, site).projectsLabel.value))
    ensures Enrich(rec, site, parseFloat).record == rec
  {
  }

  /** A projects label whose first digit run is longer than `int` accepts
      fails the step with ValueError, and the step has written nothing yet. */
  lemma EnrichProjectsTooLong(rec: Record, site: string -> Page, parseFloat: string -> Option<real>)
    requires "url" in rec && rec["url"].Text?
    requires PageOf(rec, site).projectsLabel.Some?
    requires FirstDigitRun(PageOf(rec, site).projectsLabel.value).Some?
    requires |FirstDigitRun(PageOf(rec, site).projectsLabel.value).value| > INT_MAX_STR_DIGITS
    ensures Enrich(rec, site, parseFloat).failure == Some(RunTooLong(PageOf(rec, site).projectsLabel.value))
    ensures Enrich(rec, site, parseFloat).record == rec
  {
    var text := PageOf(rec, site).projectsLabel.value;
    assert FirstInt(text).Failure? && !FirstInt(text).error.NoDigits?;
  }

  /** Without a projects label no project_count is added, and the step goes on. */
  lemma EnrichProjectsAbsent(rec: Record, site: string -> Page, parseFloat: string -> Option<real>)
    requires Visitable(rec)
    requires PageOf(rec, site).projectsLabel.None?
    requires PROJECT_COUNT !in rec && PROJECT_COUNT !in DetailKeys(PageOf(rec, site).cells)
    ensures PROJECT_COUNT !in Enrich(rec, site, parseFloat).record
  {
    var page := PageOf(rec, site);
    ScanCellsAt(rec, page.cells, PROJECT_COUNT);
  }

  /** Without a rating element neither the rating nor the review count is
      added, and the step succeeds. */
  lemma EnrichRatingAbsent(rec: Record, site: string -> Page, parseFloat: string -> Option<real>)
    requires Visitable(rec)
    requires PageOf(rec, site).rating.None?
    requires ProjectsReadable(PageOf(rec, site).projectsLabel)
    requires RATING !in rec && RATING !in DetailKeys(PageOf(rec, site).cells)
    requires REVIEW_COUNT !in rec && REVIEW_COUNT !in DetailKeys(PageOf(rec, site).cells)
    ensures Enrich(rec, site, parseFloat).failure.None?
    ensures RATING !in Enrich(rec, site, parseFloat).record
    ensures REVIEW_COUNT !in Enrich(rec, site, parseFloat).record
  {
    var page := PageOf(rec, site);
    var projects := ProjectsStep(rec, page.projectsLabel);
    ScanCellsAt(projects.record, page.cells, RATING);
    ScanCellsAt(projects.record, page.cells, REVIEW_COUNT);
  }

  /** A rating without a review-number element fails the step. */
  lemma EnrichReviewsMissing(rec: Record, site: string -> Page, parseFloat: string -> Option<real>)
    requires Visitable(rec)
    requires ProjectsReadable(PageOf(rec, site).projectsLabel)
    requires PageOf(rec, site).rating.Some? && PageOf(rec, site).reviews.None?
    ensures Enrich(rec, site, parseFloat).failure == Some(NoReviewsElement)
  {
  }

  /** A review text without digits fails the step before the rating is written. */
  lemma EnrichReviewsWithoutDigits(rec: Record, site: string -> Page, parseFloat: string -> Option<real>)
    requires Visitable(rec)
    requires ProjectsReadable(PageOf(rec, site).projectsLabel)
    requires PageOf(rec, site).rating.Some? && PageOf(rec, site).reviews.Some?
    requires NoDigit(PageOf(rec, site).reviews.value)
    requires RATING !in rec && RATING !in DetailKeys(PageOf(rec, site).cells)
    ensures Enrich(rec, site, parseFloat).failure == Some(NoDigitRun(PageOf(rec, site).reviews.value))
    ensures RATING !in Enrich(rec, site, parseFloat).record
  {
    var page := PageOf(rec, site);
    var projects := ProjectsStep(rec, page.projectsLabel);
    ScanCellsAt(projects.record, page.cells, RATING);
  }

  /** When the step succeeds with a rating element present, both the review
      count (the first digit run of the review text) and the rating are set;
      they are written last, so no detail cell overrides them. */
  lemma EnrichRatingPaired(rec: Record, site: string -> Page, parseFloat: string -> Option<real>)
    requires "url" in rec && rec["url"].Text?
    requires PageOf(rec, site).rating.Some?
    requires Enrich(rec, site, parseFloat).failure.None?
    ensures PageOf(rec, site).reviews.Some?
    ensures FirstInt(PageOf(rec, site).reviews.value).Success?
    ensures parseFloat(PageOf(rec, site).rating.value).Some?
    ensures Enrich(rec, site, parseFloat).record[REVIEW_COUNT]
            == Int(FirstInt(PageOf(rec, site).reviews.value).value)
    ensures Enrich(rec, site, parseFloat).record[RATING]
            == Float(parseFloat(PageOf(rec, site).rating.value).value)
  {
  }

  /** The keys of a successfully enriched record: the old keys, the detail
      keys, and the fields the step adds; a key that neither the step nor a
      detail cell writes keeps its value. */
  lemma EnrichKeepsFields(rec: Record, site: string -> Page, parseFloat: string -> Option<real>, k: string)
    requires "url" in rec && rec["url"].Text?
    requires k != PROJECT_COUNT && k != REVIEW_COUNT && k != RATING
    requires k !in DetailKeys(PageOf(rec, site).cells)
    ensures k in rec ==> k in Enrich(rec, site, parseFloat).record && Enrich(rec, site, parseFloat).record[k] == rec[k]
    ensures k !in rec ==> k !in Enrich(rec, site, parseFloat).record
  {
    var page := PageOf(rec, site);
    var projects := ProjectsStep(rec, page.projectsLabel);
    ScanCellsAt(projects.record, page.cells, k);
  }

  /** The step removes no key, whether it succeeds or fails. */
  lemma EnrichKeepsKeys(rec: Record, site: string -> Page, parseFloat: string -> Option<real>)
    ensures rec.Keys <= Enrich(rec, site, parseFloat).record.Keys
  {
    if "url" in rec && rec["url"].Text? {
      var page := PageOf(rec, site);
      var projects := ProjectsStep(rec, page.projectsLabel);
      var scanned := ScanCells(projects.record, page.cells);
      forall j | j in rec ensures j in scanned {
        ScanCellsAt(projects.record, page.cells, j);
      }
    }
  }

  /** A detail cell before the first malformed one overwrites whatever key
      it names, `name` and `url` included: the record the step returns
      holds the last such value, whether or not the rating block then
      fails. */
  lemma EnrichDetailOverwrites(rec: Record, site: string -> Page, parseFloat: string -> Option<real>,
                               k: string)
    requires Visitable(rec)
    requires ProjectsReadable(PageOf(rec, site).projectsLabel)
    requires k != REVIEW_COUNT && k != RATING
    requires k in DetailKeys(PageOf(rec, site).cells)
    ensures var cells := PageOf(rec, site).cells;
            var prefix := cells[..FirstMalformed(cells)];
            && LastValueFor(prefix, k).Some?
            && k in Enrich(rec, site, parseFloat).record
            && Enrich(rec, site, parseFloat).record[k] == Text(LastValueFor(prefix, k).value)
  {
    var page := PageOf(rec, site);
    var projects := ProjectsStep(rec, page.projectsLabel);
    ScanCellsAt(projects.record, page.cells, k);
  }

  // ---------------------------------------------------------------------------
  // The list

  /** The step as a value: record in, record and error out. */
  function EnrichFn(site: string -> Page, parseFloat: string -> Option<real>): Record -> Step
  {
    rec => var o := Enrich(rec, site, parseFloat); Step(o.record, o.failure)
  }

  /** The list after the loop of `parse_contractors`, with the first error
      raised, if any. Once a step fails, the loop is over. */
  datatype Batch = Batch(records: seq<Record>, failure: Option<ParseError>)

  function ParseWith(recs: seq<Record>, step: Record -> Step): Batch
  {
    if |recs| == 0 then Batch([], None)
    else
      var done := ParseWith(recs[..|recs| - 1], step);
      var last := recs[|recs| - 1];
      if done.failure.Some? then Batch(done.records + [last], done.failure)
      else
        var s := step(last);
        Batch(done.records + [s.record], s.failure)
  }

  function ParseAll(recs: seq<Record>, site: string -> Page, parseFloat: string -> Option<real>): Batch
  {
    ParseWith(recs, EnrichFn(site, parseFloat))
  }

  /** The index of the first record whose step fails, or |recs|. */
  function FirstFailing(recs: seq<Record>, step: Record -> Step): (f: nat)
    ensures f <= |recs|
    ensures forall i :: 0 <= i < f ==> step(recs[i]).failure.None?
    ensures f < |recs| ==> step(recs[f]).failure.Some?
  {
    if |recs| == 0 then 0
    else
      var n := |recs| - 1;
      var f := FirstFailing(recs[..n], step);
      assert forall i :: 0 <= i < n ==> recs[..n][i] == recs[i];
      if f < n then f else if step(recs[n]).failure.Some? then n else n + 1
  }

  /** The loop leaves the list as long as it was. */
  lemma {:induction false} ParseWithLength(recs: seq<Record>, step: Record -> Step)
    ensures |ParseWith(recs, step).records| == |recs|
  {
    if |recs| > 0 {
      ParseWithLength(recs[..|recs| - 1], step);
    }
  }

  /** The loop fails exactly when some record fails, with the error of the
      first record that does. */
  lemma {:induction false} ParseWithFailure(recs: seq<Record>, step: Record -> Step)
    ensures ParseWith(recs, step).failure.None? <==> FirstFailing(recs, step) == |recs|
    ensures FirstFailing(recs, step) < |recs| ==>
              ParseWith(recs, step).failure == step(recs[FirstFailing(recs, step)]).failure
  {
    if |recs| > 0 {
      var n := |recs| - 1;
      ParseWithFailure(recs[..n], step);
      var f := FirstFailing(recs[..n], step);
      if f < n {
        assert recs[..n][f] == recs[f];
      }
    }
  }

  /** Records up to the first failing one, that one included, are as their
      step left them. */
  lemma {:induction false} ParseWithPrefix(recs: seq<Record>, step: Record -> Step)
    ensures |ParseWith(recs, step).records| == |recs|
    ensures forall i :: 0 <= i < |recs| && i <= FirstFailing(recs, step) ==>
              ParseWith(recs, step).records[i] == step(recs[i]).record
  {
    ParseWithLength(recs, step);
    if |recs| > 0 {
      var n := |recs| - 1;
      var init := recs[..n];
      ParseWithPrefix(init, step);
      ParseWithFailure(init, step);
      var f := FirstFailing(init, step);
      var done := ParseWith(init, step);
      var b := ParseWith(recs, step);
      assert b.records == done.records + [b.records[n]];
      assert FirstFailing(recs, step) < n ==> FirstFailing(recs, step) == f;
      forall i | 0 <= i < |recs| && i <= FirstFailing(recs, step)
        ensures b.records[i] == step(recs[i]).record
      {
        if i < n {
          assert b.records[i] == done.records[i];
          assert init[i] == recs[i];
        } else {
          assert f == n;
        }
      }
    }
  }

  /** The records after the first failing one are untouched. */
  lemma {:induction false} ParseWithSuffix(recs: seq<Record>, step: Record -> Step)
    ensures |ParseWith(recs, step).records| == |recs|
    ensures forall i :: FirstFailing(recs, step) < i < |recs| ==>
              ParseWith(recs, step).records[i] == recs[i]
  {
    ParseWithLength(recs, step);
    if |recs| > 0 {
      var n := |recs| - 1;
      var init := recs[..n];
      ParseWithSuffix(init, step);
      ParseWithFailure(init, step);
      var f := FirstFailing(init, step);
      var done := ParseWith(init, step);
      var b := ParseWith(recs, step);
      forall i | FirstFailing(recs, step) < i < |recs|
        ensures b.records[i] == recs[i]
      {
        assert f < n;
        if i < n {
          assert b.records[i] == done.records[i];
          assert init[i] == recs[i];
        }
      }
    }
  }

  /** The list keeps its length and order. Records before the first failing
      one are enriched, the failing one is left as its step left it, the
      records after it are untouched, and the loop fails exactly when some
      record fails. */
  lemma ParseWithAt(recs: seq<Record>, step: Record -> Step)
    ensures var b := ParseWith(recs, step);
            var f := FirstFailing(recs, step);
            && |b.records| == |recs|
            && (forall i :: 0 <= i < f ==> b.records[i] == step(recs[i]).record)
            && (b.failure.None? <==> f == |recs|)
            && (f < |recs| ==> && b.failure == step(recs[f]).failure
                               && b.records[f] == step(recs[f]).record
                               && forall i :: f < i < |recs| ==> b.records[i] == recs[i])
  {
    ParseWithPrefix(recs, step);
    ParseWithSuffix(recs, step);
    ParseWithFailure(recs, step);
  }

  /** A record that passes its step leaves the loop running, with one more
      enriched record. */
  lemma ParseWithSnoc(recs: seq<Record>, i: nat, step: Record -> Step)
    requires i < |recs| && ParseWith(recs[..i], step).failure.None?
    ensures ParseWith(recs[..i + 1], step)
            == Batch(ParseWith(recs[..i], step).records + [step(recs[i]).record], step(recs[i]).failure)
  {
    assert recs[..i + 1][..i] == recs[..i];
  }

  /** Once a record fails, the rest of the list is left as it is. */
  lemma {:induction false} ParseWithStops(recs: seq<Record>, n: nat, step: Record -> Step)
    requires n <= |recs|
    requires ParseWith(recs[..n], step).failure.Some?
    ensures ParseWith(recs, step)
            == Batch(ParseWith(recs[..n], step).records + recs[n..], ParseWith(recs[..n], step).failure)
    decreases |recs| - n
  {
    if n < |recs| {
      assert recs[..n + 1][..n] == recs[..n];
      ParseWithStops(recs, n + 1, step);
      assert recs[n..] == [recs[n]] + recs[n + 1..];
    } else {
      assert recs[..n] == recs;
    }
  }

  /** The bookkeeping of one turn of the loop in `parse_contractors`. */
  lemma ParseTurn(original: seq<Record>, i: nat, step: Record -> Step, r: Record)
    requires i < |original| && ParseWith(original[..i], step).failure.None?
    requires r == step(original[i]).record
    ensures |ParseWith(original[..i], step).records| == i
    ensures ParseWith(original[..i + 1], step).failure == step(original[i]).failure
    ensures (ParseWith(original[..i], step).records + original[i..])[i := r]
            == ParseWith(original[..i + 1], step).records + original[i + 1..]
  {
    ParseWithLength(original[..i], step);
    ParseWithSnoc(original, i, step);
    var done := ParseWith(original[..i], step).records;
    assert original[i..] == [original[i]] + original[i + 1..];
    assert (done + original[i..])[i := r] == done + [r] + original[i + 1..];
  }

  /** One turn of the loop: the step on one record, its visits dropped. */
  method ParseOne(contractor: Record, site: string -> Page, parseFloat: string -> Option<real>)
    returns (r: Record, failure: Option<ParseError>)
    ensures Step(r, failure) == EnrichFn(site, parseFloat)(contractor)
  {
    var visits;
    r, visits, failure := ParseContractor(contractor, site, parseFloat);
  }

  /** `ContractorsParser`: the list of records it enriches in place. */
  class ContractorsParser {
    var contractors: seq<Record>

    constructor (contractors: seq<Record>)
      ensures this.contractors == contractors
    {
      this.contractors := contractors;
    }

    /** `parse_contractors`: `contractor.update(self.__parse_contractor(contractor))`
        for each record in turn (the update merges the record with itself);
        the first error propagates and leaves the list as far as it got. */
    method ParseContractors(site: string -> Page, parseFloat: string -> Option<real>)
      returns (result: Result<seq<Record>, ParseError>)
      modifies this
      ensures contractors == ParseAll(old(contractors), site, parseFloat).records
      ensures result == match ParseAll(old(contractors), site, parseFloat).failure
                        case None => Success(contractors)
                        case Some(e) => Failure(e)
    {
      ghost var original := contractors;
      ghost var step := EnrichFn(site, parseFloat);
      var i := 0;
      while i < |contractors|
        invariant |contractors| == |original|
        invariant 0 <= i <= |original|
        invariant ParseWith(original[..i], step).failure.None?
        invariant contractors == ParseWith(original[..i], step).records + original[i..]
      {
        assert contractors[i] == original[i];
        var r, failure := ParseOne(contractors[i], site, parseFloat);
        ParseTurn(original, i, step, r);
        contractors := contractors[i := r];
        if failure.Some? {
          ParseWithStops(original, i + 1, step);
          assert original[..i + 1] + original[i + 1..] == original;
          return Failure(failure.value);
        }
        i := i + 1;
      }
      assert original[..i] == original;
      result := Success(contractors);
    }
  }

  /** `run_contractors_parser`: a fresh parser over the list, run once. */
  method RunContractorsParser(contractors: seq<Record>, site: string -> Page,
                              parseFloat: string -> Option<real>)
    returns (result: Result<seq<Record>, ParseError>)
    ensures ParseAll(contractors, site, parseFloat).failure.None? ==>
              result == Success(ParseAll(contractors, site, parseFloat).records)
    ensures ParseAll(contractors, site, parseFloat).failure.Some? ==>
              result == Failure(ParseAll(contractors, site, parseFloat).failure.value)
  {
    var parser := new ContractorsParser(contractors);
    result := parser.ParseContractors(site, parseFloat);
  }

  /** What `run_contractors_parser` returns on success: the same number of
      records in the same order, each the enrichment of the one given. */
  lemma RunContractorsParserSuccess(contractors: seq<Record>, site: string -> Page,
                                    parseFloat: string -> Option<real>)
    requires ParseAll(contractors, site, parseFloat).failure.None?
    ensures |ParseAll(contractors, site, parseFloat).records| == |contractors|
    ensures forall i :: 0 <= i < |contractors| ==>
              && Enrich(contractors[i], site, parseFloat).failure.None?
              && ParseAll(contractors, site, parseFloat).records[i] == Enrich(contractors[i], site, parseFloat).record
  {
    ParseWithAt(contractors, EnrichFn(site, parseFloat));
  }

  /** The step succeeds on every record of the list. */
  predicate EverySucceeds(recs: seq<Record>, site: string -> Page, parseFloat: string -> Option<real>)
  {
    forall i :: 0 <= i < |recs| ==> Enrich(recs[i], site, parseFloat).failure.None?
  }

  /** Every record enriched in turn, each on its own. */
  function EnrichAll(recs: seq<Record>, site: string -> Page, parseFloat: string -> Option<real>): seq<Record>
  {
    seq(|recs|, (i: nat) requires i < |recs| => Enrich(recs[i], site, parseFloat).record)
  }

  /** The loop over the list succeeds exactly when the step succeeds on every
      record, and then the list is every record enriched. */
  lemma ParseAllSucceeds(recs: seq<Record>, site: string -> Page, parseFloat: string -> Option<real>)
    ensures ParseAll(recs, site, parseFloat).failure.None? <==> EverySucceeds(recs, site, parseFloat)
    ensures ParseAll(recs, site, parseFloat).failure.None? ==>
              ParseAll(recs, site, parseFloat).records == EnrichAll(recs, site, parseFloat)
  {
    ParseWithAt(recs, EnrichFn(site, parseFloat));
  }

  /** Enriching a list of lists in turn never fails when no record fails. */
  lemma EverySucceedsAppend(xs: seq<Record>, ys: seq<Record>, site: string -> Page,
                            parseFloat: string -> Option<real>)
    ensures EverySucceeds(xs + ys, site, parseFloat)
            <==> EverySucceeds(xs, site, parseFloat) && EverySucceeds(ys, site, parseFloat)
  {
    assert forall i :: 0 <= i < |xs| ==> (xs + ys)[i] == xs[i];
    assert forall i :: 0 <= i < |ys| ==> (xs + ys)[|xs| + i] == ys[i];
  }

  /** Enriching two lists in turn is enriching their concatenation. */
  lemma EnrichAllAppend(xs: seq<Record>, ys: seq<Record>, site: string -> Page,
                        parseFloat: string -> Option<real>)
    ensures EnrichAll(xs + ys, site, parseFloat) == EnrichAll(xs, site, parseFloat) + EnrichAll(ys, site, parseFloat)
  {
  }
}
