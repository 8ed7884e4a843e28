/** The orchestration in `main.py`: the listing pages are walked with a
    one-session pool, each page yielding stub records (name, url, page,
    expected page); the stubs are then cut into chunks and every chunk is
    enriched by a contractor parser. The browser is a listing observation
    per URL and a detail page per URL; worker threads and processes run one
    after another, in submission order. */
module Pipeline {
  import opened Common
  import opened Text
  import opened DriverPool
  import opened ContractorParser

  const MAX_WORKERS: nat := 1
  const PAGE_COUNT: nat := 1
  const ITEM_PER_PAGE: nat := 15
  /** The size of the session pool `main` opens. */
  const POOL_SIZE: nat := 1

  const HOST: string := "https://www.houzz.com"
  /** The search listing the scraper walks, without its query. */
  const BASE_PATH: string := HOST + "/professionals" + "/general-contractor" + "/probr0-bo~t_11786"

  // ---------------------------------------------------------------------------
  // Listing URLs

  /** The URL of listing page `page`: its offset is the number of items on
      the pages before it. */
  function PageUrl(page: int): string
  {
    BASE_PATH + "?fi=" + IntToDecimal(ITEM_PER_PAGE * (page - 1))
  }

  /** `url.split('?')[0]`: the URL up to its first '?', or all of it. */
  function BaseUrl(url: string): (r: string)
    ensures |r| <= |url| && r == url[..|r|]
    ensures forall k :: 0 <= k < |r| ==> r[k] != '?'
    ensures |r| == |url| || url[|r|] == '?'
  {
    var r := SplitFirst(url, "?");
    forall k | 0 <= k < |r| ensures r[k] != '?' {
      assert r[k] == url[k];
      if url[k] == '?' {
        assert url[k..k + 1] == "?";
        assert OccursAt(url, "?", k);
      }
    }
    assert |r| < |url| ==> url[|r|] == url[|r|..|r| + 1][0];
    r
  }

  /** `url.split('fi=')[-1]`: what follows the last "fi=", or all of it. */
  function ExpectedPage(url: string): (r: string)
    ensures |r| <= |url| && r == url[|url| - |r|..]
  {
    SplitLast(url, "fi=")
  }

  /** In any URL, the expected page is what follows the last "fi=": that
      occurrence is the last piece's separator, since "fi=" cannot overlap
      another "fi=". */
  lemma ExpectedPageAt(url: string, i: nat)
    requires OccursAt(url, "fi=", i)
    requires forall k: nat :: i < k ==> !OccursAt(url, "fi=", k)
    ensures ExpectedPage(url) == url[i + 3..]
  {
    assert url[i..i + 3][0] == url[i] == 'f';
    SplitLastAt(url, "fi=", i);
  }

  /** The base path holds no '?'. */
  lemma BasePathPlain()
    ensures forall k :: 0 <= k < |BASE_PATH| ==> BASE_PATH[k] != '?'
  {
    assert '?' !in HOST;
    assert '?' !in "/professionals";
    assert '?' !in "/general-contractor";
    assert '?' !in "/probr0-bo~t_11786";
    forall k | 0 <= k < |BASE_PATH| ensures BASE_PATH[k] != '?' {
      assert BASE_PATH[k] in BASE_PATH;
    }
  }

  /** Cutting a page URL at its first '?' gives back the base path. */
  lemma PageUrlBase(page: int)
    ensures BaseUrl(PageUrl(page)) == BASE_PATH
  {
    BasePathPlain();
    var rest := "?fi=" + IntToDecimal(ITEM_PER_PAGE * (page - 1));
    assert PageUrl(page) == BASE_PATH + rest;
    CutAtFirst(BASE_PATH, rest);
  }

  /** A prefix free of '?' followed by a text that starts with '?' is what
      cutting at the first '?' gives back. */
  lemma CutAtFirst(prefix: string, rest: string)
    requires forall k :: 0 <= k < |prefix| ==> prefix[k] != '?'
    requires |rest| > 0 && rest[0] == '?'
    ensures SplitFirst(prefix + rest, "?") == prefix
  {
    var s := prefix + rest;
    var i := |prefix|;
    assert s[i..i + 1] == "?";
    forall k | 0 <= k < i ensures !OccursAt(s, "?", k) {
      assert s[k] == prefix[k];
    }
    SplitFirstAt(s, "?", i);
    assert s[..i] == prefix;
  }

  /** The expected page read back from a page URL is the offset it was built
      with: the query's "fi=" is the last one, since the digits after it hold
      no 'f', and no earlier "fi=" overlaps it. */
  lemma PageUrlExpected(page: int)
    ensures ExpectedPage(PageUrl(page)) == IntToDecimal(ITEM_PER_PAGE * (page - 1))
  {
    var d := IntToDecimal(ITEM_PER_PAGE * (page - 1));
    var prefix := BASE_PATH + "?";
    assert PageUrl(page) == prefix + "fi=" + d;
    assert prefix[|prefix| - 2] == '6';
    forall k | 0 <= k < |d| ensures d[k] != 'f' {
      if k > 0 { assert IsDigit(d[k]); }
    }
    CutAfterLastFi(prefix, d);
  }

  /** With no 'f' in the last two characters before "fi=" and none after it,
      that "fi=" is the last one and no earlier one overlaps it, so the last
      piece of the split is what follows it. */
  lemma CutAfterLastFi(prefix: string, d: string)
    requires |prefix| >= 2 && prefix[|prefix| - 2] != 'f' && prefix[|prefix| - 1] != 'f'
    requires forall k :: 0 <= k < |d| ==> d[k] != 'f'
    ensures SplitLast(prefix + "fi=" + d, "fi=") == d
  {
    var s := prefix + "fi=" + d;
    var i := |prefix|;
    assert s[i..i + 3] == "fi=";
    forall k: nat | i < k ensures !OccursAt(s, "fi=", k) {
      if k + 3 <= |s| {
        assert s[k..k + 3][0] == s[k];
        if k >= i + 3 {
          assert s[k] == d[k - i - 3];
        }
      }
    }
    forall k: nat | i - 3 < k < i ensures !OccursAt(s, "fi=", k) {
      assert s[k..k + 3][0] == s[k] == prefix[k];
    }
    SplitLastAt(s, "fi=", i);
    assert s[i + 3..] == d;
  }

  /** For a real page number the expected page is a decimal string whose
      value is the page's offset, so distinct pages expect distinct offsets. */
  lemma PageUrlOffset(page: int)
    requires page >= 1
    ensures AllDigits(ExpectedPage(PageUrl(page)))
    ensures DecimalValue(ExpectedPage(PageUrl(page))) == ITEM_PER_PAGE * (page - 1)
  {
    PageUrlExpected(page);
    DecimalRoundTrip(ITEM_PER_PAGE * (page - 1));
  }

  // ---------------------------------------------------------------------------
  // Gathering the links of one listing page

  /** A contractor card: its name element's text, when the wait finds one,
      and its anchor. */
  datatype Card = Card(name: Option<string>, anchor: Anchor)

  /** A card's first `a` element: absent, or present with an `href`
      attribute that may be missing. */
  datatype Anchor = NoAnchor | Anchor(href: Option<string>)

  /** What the browser shows for one listing URL: whether the "anywhere"
      location item appears, the radius field's text, the result cards in
      page order, and the selected pagination link's text. */
  datatype Listing = Listing(anywhereButton: bool, radius: Option<string>,
                             cards: seq<Card>, selectedPage: Option<string>)

  /** What the gatherer makes its browser session do. */
  datatype Action = Navigate(url: string) | ClickAnywhere

  datatype GatherError = Timeout(selector: string) | NoSuchElement(selector: string)

  /** The actions taken, and the stubs or the exception raised. */
  datatype Gathering = Gathering(actions: seq<Action>, stubs: Result<seq<Record>, GatherError>)

  const ANYWHERE_ITEM: string := "#hui-menu-1-item-4"
  const RADIUS_FIELD: string := "[data-component=\"Radius\""
  const RESULT_ITEM: string := ".hz-pro-search-results__item"
  const SELECTED_PAGE: string := ".hz-pagination-link--selected"
  const PRO_NAME: string := "[data-component=\"Pro Name\""
  const CARD_LINK: string := "a"

  /** The value `get_attribute('href')` stores: the text, or None. */
  function HrefValue(href: Option<string>): Value
  {
    match href
    case None => Null
    case Some(h) => Text(h)
  }

  /** One gathered record. */
  function Stub(name: string, url: Value, page: string, expected: string): (r: Record)
    ensures r.Keys == {"name", "url", "page", "expected_page"}
  {
    map["name" := Text(name), "url" := url, "page" := Text(page), "expected_page" := Text(expected)]
  }

  /** The list comprehension over the cards, in card order; the first card
      whose name wait times out or that has no anchor raises. */
  function Stubs(cards: seq<Card>, page: string, expected: string): Result<seq<Record>, GatherError>
  {
    if |cards| == 0 then Success([])
    else
      match cards[0].name
      case None => Failure(Timeout(PRO_NAME))
      case Some(name) =>
        match cards[0].anchor
        case NoAnchor => Failure(NoSuchElement(CARD_LINK))
        case Anchor(href) =>
          match Stubs(cards[1..], page, expected)
          case Failure(e) => Failure(e)
          case Success(rest) => Success([Stub(name, HrefValue(href), page, expected)] + rest)
  }

  predicate CardReadable(c: Card)
  {
    c.name.Some? && c.anchor.Anchor?
  }

  /** The comprehension succeeds exactly when every card has a name and an
      anchor; then it yields one stub per card, in card order, each carrying
      the card's name and href and the page's two page fields. */
  lemma {:induction false} StubsShape(cards: seq<Card>, page: string, expected: string)
    ensures Stubs(cards, page, expected).Success? <==> forall i :: 0 <= i < |cards| ==> CardReadable(cards[i])
    ensures Stubs(cards, page, expected).Success? ==>
              var r := Stubs(cards, page, expected).value;
              && |r| == |cards|
              && forall i :: 0 <= i < |cards| ==>
                   r[i] == Stub(cards[i].name.value, HrefValue(cards[i].anchor.href), page, expected)
  {
    if |cards| > 0 {
      StubsShape(cards[1..], page, expected);
      assert forall i :: 1 <= i < |cards| ==> cards[1..][i - 1] == cards[i];
      if !CardReadable(cards[0]) {
        assert Stubs(cards, page, expected).Failure?;
      }
    }
  }

  /** `gather_links`: open the base URL, click the "anywhere" item whatever
      state it is in, wait for the radius field, open the page URL, and read
      the cards and the selected page number. */
  function GatherLinks(url: string, listing: Listing): Gathering
  {
    var base := BaseUrl(url);
    if !listing.anywhereButton then Gathering([Navigate(base)], Failure(Timeout(ANYWHERE_ITEM)))
    else if listing.radius.None? then Gathering([Navigate(base), ClickAnywhere], Failure(Timeout(RADIUS_FIELD)))
    else
      var actions := [Navigate(base), ClickAnywhere, Navigate(url)];
      // presence_of_all_elements_located keeps waiting while the list is empty
      if |listing.cards| == 0 then Gathering(actions, Failure(Timeout(RESULT_ITEM)))
      else if listing.selectedPage.None? then Gathering(actions, Failure(Timeout(SELECTED_PAGE)))
      else Gathering(actions, Stubs(listing.cards, listing.selectedPage.value, ExpectedPage(url)))
  }

  /** The click happens as soon as the item appears, before anything else is
      looked at; the base URL is always opened first. */
  lemma GatherClicksUnconditionally(url: string, listing: Listing)
    ensures GatherLinks(url, listing).actions[0] == Navigate(BaseUrl(url))
    ensures listing.anywhereButton <==> ClickAnywhere in GatherLinks(url, listing).actions
    ensures listing.anywhereButton ==> GatherLinks(url, listing).actions[1] == ClickAnywhere
  {
  }

  /** Gathering succeeds exactly when every wait is met and every card is
      readable; then there is one stub per card, in card order, all sharing
      the selected page and the expected page read from the URL. */
  lemma GatherLinksShape(url: string, listing: Listing)
    ensures GatherLinks(url, listing).stubs.Success?
            <==> && listing.anywhereButton && listing.radius.Some?
                 && |listing.cards| > 0 && listing.selectedPage.Some?
                 && forall i :: 0 <= i < |listing.cards| ==> CardReadable(listing.cards[i])
    ensures GatherLinks(url, listing).stubs.Success? ==>
              var r := GatherLinks(url, listing).stubs.value;
              var cards := listing.cards;
              && GatherLinks(url, listing).actions == [Navigate(BaseUrl(url)), ClickAnywhere, Navigate(url)]
              && |r| == |cards|
              && forall i :: 0 <= i < |cards| ==>
                   r[i] == Stub(cards[i].name.value, HrefValue(cards[i].anchor.href),
                                listing.selectedPage.value, ExpectedPage(url))
  {
    if listing.anywhereButton && listing.radius.Some? && |listing.cards| > 0 && listing.selectedPage.Some? {
      StubsShape(listing.cards, listing.selectedPage.value, ExpectedPage(url));
    }
  }

  /** The list `run_gather_links` returns: the stubs, or [] when gathering
      raised. */
  function LinksOrEmpty(url: string, listing: Listing): seq<Record>
  {
    var g := GatherLinks(url, listing);
    if g.stubs.Success? then g.stubs.value else []
  }

  /** `run_gather_links`: take a session, gather with it, replace an
      exception by [], and give the session back in every case. */
  method RunGatherLinks(pool: WebDriverPool, url: string, listing: Listing)
    returns (links: seq<Record>, session: Session, actions: seq<Action>)
    requires pool.Valid() && |pool.workers| > 0
    modifies pool
    ensures links == LinksOrEmpty(url, listing)
    ensures session == old(pool.workers)[0] && actions == GatherLinks(url, listing).actions
    ensures pool.workers == old(pool.workers)[1..] + [old(pool.workers)[0]]
    ensures multiset(pool.workers) == multiset(old(pool.workers))
    ensures pool.outstanding == old(pool.outstanding) && pool.quitLog == old(pool.quitLog)
    ensures pool.Valid()
  {
    session := pool.Acquire();
    var g := GatherLinks(url, listing);
    actions := g.actions;
    match g.stubs {
      case Success(stubs) => links := stubs;
      case Failure(_) => links := [];
    }
    pool.Release(session);
    assert old(pool.workers) == [session] + old(pool.workers)[1..];
  }

  /** The links of listing page `page`. */
  function PageLinks(page: int, listingAt: string -> Listing): seq<Record>
  {
    LinksOrEmpty(PageUrl(page), listingAt(PageUrl(page)))
  }

  /** Page numbers to their links. */
  function LinksOf(listingAt: string -> Listing): int -> seq<Record>
  {
    page => PageLinks(page, listingAt)
  }

  /** The per-page lists for pages 1..n, in page order. */
  function PerPage(n: nat, links: int -> seq<Record>): (pages: seq<seq<Record>>)
    ensures |pages| == n
    ensures forall k :: 0 <= k < n ==> pages[k] == links(k + 1)
  {
    if n == 0 then [] else PerPage(n - 1, links) + [links(n)]
  }

  /** `contractors` after the gathering loop: the pages' lists extended in turn. */
  function Gathered(listingAt: string -> Listing): seq<Record>
  {
    Concat(PerPage(PAGE_COUNT, LinksOf(listingAt)))
  }

  /** A gathered record has the four stub keys, a string name and string
      page fields; its expected page is the one page URL `page` yields. */
  predicate IsStubOf(r: Record, page: int)
  {
    && r.Keys == {"name", "url", "page", "expected_page"}
    && r["name"].Text? && r["page"].Text?
    && r["expected_page"] == Text(IntToDecimal(ITEM_PER_PAGE * (page - 1)))
  }

  /** Every link of page `page` is a stub of that page. */
  lemma PageLinksAreStubs(page: int, listingAt: string -> Listing)
    ensures forall r :: r in PageLinks(page, listingAt) ==> IsStubOf(r, page) && IsStub(r)
  {
    var url := PageUrl(page);
    LinksOrEmptyStubs(url, listingAt(url));
    PageUrlExpected(page);
  }

  /** Every record `run_gather_links` returns for a URL is a stub whose
      expected page is the one that URL gives. */
  lemma LinksOrEmptyStubs(url: string, listing: Listing)
    ensures forall r :: r in LinksOrEmpty(url, listing) ==>
              && r.Keys == {"name", "url", "page", "expected_page"}
              && r["name"].Text? && r["page"].Text?
              && r["expected_page"] == Text(ExpectedPage(url))
  {
    GatherLinksShape(url, listing);
    var links := LinksOrEmpty(url, listing);
    forall r | r in links
      ensures && r.Keys == {"name", "url", "page", "expected_page"}
              && r["name"].Text? && r["page"].Text?
              && r["expected_page"] == Text(ExpectedPage(url))
    {
      var i :| 0 <= i < |links| && links[i] == r;
    }
  }

  /** A stub: the four keys, with a string name. */
  predicate IsStub(r: Record)
  {
    r.Keys == {"name", "url", "page", "expected_page"} && r["name"].Text?
  }

  /** Every list of the first n pages holds only stubs. */
  lemma {:induction false} PerPageStubs(n: nat, links: int -> seq<Record>)
    requires forall page, x :: x in links(page) ==> IsStub(x)
    ensures forall k, x :: 0 <= k < n && x in PerPage(n, links)[k] ==> IsStub(x)
  {
    if n > 0 {
      PerPageStubs(n - 1, links);
      assert forall k :: 0 <= k < n - 1 ==> PerPage(n, links)[k] == PerPage(n - 1, links)[k];
    }
  }

  /** The gathered total is the sum of the page counts, and every gathered
      record is a stub. */
  lemma GatheredShape(listingAt: string -> Listing)
    ensures |Gathered(listingAt)| == SumLengths(PerPage(PAGE_COUNT, LinksOf(listingAt)))
    ensures forall r :: r in Gathered(listingAt) ==> IsStub(r)
  {
    var links := LinksOf(listingAt);
    var pages := PerPage(PAGE_COUNT, links);
    ConcatLength(pages);
    forall page, x | x in links(page) ensures IsStub(x) {
      PageLinksAreStubs(page, listingAt);
    }
    PerPageStubs(PAGE_COUNT, links);
    ConcatForall(pages, IsStub);
  }

  /** A stub always has its URL and its name, so the step on it never fails
      on a missing key. */
  lemma StubHasKeys(r: Record, site: string -> Page, parseFloat: string -> Option<real>)
    requires IsStub(r)
    ensures Enrich(r, site, parseFloat).failure != Some(MissingKey("url"))
    ensures Enrich(r, site, parseFloat).failure != Some(MissingKey("name"))
  {
    EnrichKeyErrors(r, site, parseFloat);
  }

  // ---------------------------------------------------------------------------
  // Chunks

  datatype ChunkError = ZeroDivision | ZeroStep

  /** `[xs[i:i + step] for i in range(0, len(xs), step)]`: consecutive
      slices of `step` items, the last one possibly shorter. */
  function Slices<T>(xs: seq<T>, step: nat): seq<seq<T>>
    requires step > 0
    decreases |xs|
  {
    if |xs| == 0 then []
    else if |xs| <= step then [xs]
    else [xs[..step]] + Slices(xs[step..], step)
  }

  /** The slices put back together are the list. */
  lemma {:induction false} SlicesConcat<T>(xs: seq<T>, step: nat)
    requires step > 0
    ensures Concat(Slices(xs, step)) == xs
    decreases |xs|
  {
    if |xs| > step {
      SlicesConcat(xs[step..], step);
      ConcatCons(xs[..step], Slices(xs[step..], step));
      assert xs[..step] + xs[step..] == xs;
    } else if |xs| > 0 {
      assert [xs][..0] == [];
    }
  }

  /** Every slice but the last holds exactly `step` items, and the last one
      is not empty and holds at most `step`. */
  lemma {:induction false} SlicesSizes<T>(xs: seq<T>, step: nat)
    requires step > 0
    ensures |xs| == 0 <==> |Slices(xs, step)| == 0
    ensures forall k :: 0 <= k < |Slices(xs, step)| - 1 ==> |Slices(xs, step)[k]| == step
    ensures |xs| > 0 ==> 0 < |Slices(xs, step)[|Slices(xs, step)| - 1]| <= step
    decreases |xs|
  {
    if |xs| > step {
      var rest := Slices(xs[step..], step);
      SlicesSizes(xs[step..], step);
      assert forall k :: 1 <= k < |rest| + 1 ==> Slices(xs, step)[k] == rest[k - 1];
    }
  }

  /** There are as many slices as `range(0, len(xs), step)` has starts:
      the last one starts before the end and one more would not. */
  lemma {:induction false} SlicesCount<T>(xs: seq<T>, step: nat)
    requires step > 0 && |xs| > 0
    ensures (|Slices(xs, step)| - 1) * step < |xs| <= |Slices(xs, step)| * step
    decreases |xs|
  {
    if |xs| > step {
      var m := |Slices(xs[step..], step)|;
      SlicesCount(xs[step..], step);
      assert (m - 1) * step + step == m * step;
      assert m * step + step == (m + 1) * step;
    }
  }

  /** Slice k is `xs[k * step : k * step + step]`, clipped at the end. */
  lemma {:induction false} SliceAt<T>(xs: seq<T>, step: nat, k: nat)
    requires step > 0 && k < |Slices(xs, step)|
    ensures k * step < |xs|
    ensures Slices(xs, step)[k] == xs[k * step .. Min(k * step + step, |xs|)]
    decreases |xs|
  {
    if k > 0 {
      assert |xs| > step;
      var ys := xs[step..];
      assert Slices(xs, step)[k] == Slices(ys, step)[k - 1];
      SliceAt(ys, step, k - 1);
      var lo := (k - 1) * step;
      assert lo + step == k * step;
      var hi := Min(lo + step, |ys|);
      assert hi + step == Min(k * step + step, |xs|);
      SliceShift(xs, step, lo, hi);
    }
  }

  /** A slice of the tail after `step` items is the slice `step` further on. */
  lemma SliceShift<T>(xs: seq<T>, step: nat, lo: nat, hi: nat)
    requires step <= |xs| && lo <= hi <= |xs| - step
    ensures xs[step..][lo..hi] == xs[lo + step..hi + step]
  {
    assert forall j :: 0 <= j < hi - lo ==> xs[step..][lo..hi][j] == xs[lo + step + j];
  }

  function Min(a: int, b: int): int { if a < b then a else b }

  /** `len(contractors) // workers` used as the step of `range`: division by
      zero raises, and so does a zero step. In `main` the division by zero
      cannot happen: with no workers, creating the process pool has already
      raised ValueError before the division runs. */
  function Chunks<T>(xs: seq<T>, workers: nat): Result<seq<seq<T>>, ChunkError>
  {
    if workers == 0 then Failure(ZeroDivision)
    else if |xs| / workers == 0 then Failure(ZeroStep)
    else Success(Slices(xs, |xs| / workers))
  }

  /** Chunking succeeds exactly when there is at least one item per worker;
      the chunks then put back together are the list. */
  lemma ChunksDefined<T>(xs: seq<T>, workers: nat)
    ensures Chunks(xs, workers).Success? <==> workers > 0 && |xs| >= workers
    ensures Chunks(xs, workers).Success? ==> Concat(Chunks(xs, workers).value) == xs
  {
    if workers > 0 && |xs| >= workers {
      assert |xs| / workers >= 1;
      SlicesConcat(xs, |xs| / workers);
    }
  }

  /** With one worker, as `main` runs, a gathered list that is not empty is
      one chunk, and an empty one raises. */
  lemma MainChunks<T>(xs: seq<T>)
    ensures |xs| == 0 ==> Chunks(xs, MAX_WORKERS) == Failure(ZeroStep)
    ensures |xs| > 0 ==> Chunks(xs, MAX_WORKERS) == Success([xs])
  {
  }

  /** Five items over three workers make five chunks of one item: more
      chunks than workers. */
  lemma MoreChunksThanWorkers()
    ensures Chunks([1, 2, 3, 4, 5], 3).Success?
    ensures |Chunks([1, 2, 3, 4, 5], 3).value| == 5
  {
    var xs := [1, 2, 3, 4, 5];
    assert |xs| / 3 == 1;
    SlicesCount(xs, 1);
  }

  // ---------------------------------------------------------------------------
  // The parse phase

  datatype MainError = ChunkFailed(ChunkError) | ParseFailed(ParseError)

  /** The results gathered by extending with each chunk's parsed list in
      turn; the first chunk that raises ends `main`. */
  function ParseChunks(chunks: seq<seq<Record>>, site: string -> Page,
                       parseFloat: string -> Option<real>): Result<seq<Record>, ParseError>
  {
    if |chunks| == 0 then Success([])
    else
      match ParseChunks(chunks[..|chunks| - 1], site, parseFloat)
      case Failure(e) => Failure(e)
      case Success(done) =>
        var b := ParseAll(chunks[|chunks| - 1], site, parseFloat);
        if b.failure.Some? then Failure(b.failure.value) else Success(done + b.records)
  }

  /** The parse phase succeeds exactly when the step succeeds on every
      record of every chunk, and then the results are every record enriched,
      in order. */
  lemma {:induction false} ParseChunksShape(chunks: seq<seq<Record>>, site: string -> Page,
                                           parseFloat: string -> Option<real>)
    ensures ParseChunks(chunks, site, parseFloat).Success? <==> EverySucceeds(Concat(chunks), site, parseFloat)
    ensures ParseChunks(chunks, site, parseFloat).Success? ==>
              ParseChunks(chunks, site, parseFloat).value == EnrichAll(Concat(chunks), site, parseFloat)
  {
    if |chunks| > 0 {
      var n := |chunks|;
      var init := chunks[..n - 1];
      var last := chunks[n - 1];
      ParseChunksShape(init, site, parseFloat);
      ParseAllSucceeds(last, site, parseFloat);
      EverySucceedsAppend(Concat(init), last, site, parseFloat);
      EnrichAllAppend(Concat(init), last, site, parseFloat);
    }
  }

  /** Once a chunk has raised, the chunks after it change nothing. */
  lemma {:induction false} ParseChunksStops(chunks: seq<seq<Record>>, k: nat, site: string -> Page,
                                           parseFloat: string -> Option<real>)
    requires k <= |chunks| && ParseChunks(chunks[..k], site, parseFloat).Failure?
    ensures ParseChunks(chunks, site, parseFloat) == ParseChunks(chunks[..k], site, parseFloat)
    decreases |chunks| - k
  {
    if k < |chunks| {
      assert chunks[..k + 1][..k] == chunks[..k];
      ParseChunksStops(chunks, k + 1, site, parseFloat);
    } else {
      assert chunks[..k] == chunks;
    }
  }

  /** The second half of `main`: chunk the gathered list by the item count
      per worker, and extend the results with every chunk's parsed list. */
  function ParsePhase(contractors: seq<Record>, site: string -> Page,
                      parseFloat: string -> Option<real>): Result<seq<Record>, MainError>
  {
    match Chunks(contractors, MAX_WORKERS)
    case Failure(e) => Failure(ChunkFailed(e))
    case Success(chunks) =>
      match ParseChunks(chunks, site, parseFloat)
      case Failure(e) => Failure(ParseFailed(e))
      case Success(results) => Success(results)
  }

  /** The parse phase succeeds exactly when something was gathered and every
      gathered record is enriched without error; then the results are the
      gathered records, each enriched, in the same order. */
  lemma ParsePhaseShape(contractors: seq<Record>, site: string -> Page,
                        parseFloat: string -> Option<real>)
    ensures ParsePhase(contractors, site, parseFloat).Success? <==>
              |contractors| > 0 && EverySucceeds(contractors, site, parseFloat)
    ensures ParsePhase(contractors, site, parseFloat).Success? ==>
              && ParsePhase(contractors, site, parseFloat).value == EnrichAll(contractors, site, parseFloat)
              && |ParsePhase(contractors, site, parseFloat).value| == |contractors|
    ensures |contractors| == 0 ==> ParsePhase(contractors, site, parseFloat) == Failure(ChunkFailed(ZeroStep))
  {
    MainChunks(contractors);
    if |contractors| > 0 {
      ParseChunksShape([contractors], site, parseFloat);
      assert [contractors][..0] == [];
      assert Concat([contractors]) == contractors;
    }
  }

  /** The parse phase as `main` runs it: one parser per chunk, the results
      extended in chunk order. */
  method RunParsePhase(contractors: seq<Record>, site: string -> Page,
                       parseFloat: string -> Option<real>)
    returns (result: Result<seq<Record>, MainError>)
    ensures result == ParsePhase(contractors, site, parseFloat)
  {
    var itemsPerCore := |contractors| / MAX_WORKERS;
    if itemsPerCore == 0 {
      return Failure(ChunkFailed(ZeroStep));
    }
    var chunks := Slices(contractors, itemsPerCore);
    assert Chunks(contractors, MAX_WORKERS) == Success(chunks);
    var results: seq<Record> := [];
    for k := 0 to |chunks|
      invariant ParseChunks(chunks[..k], site, parseFloat) == Success(results)
    {
      ParseChunksTurn(chunks, k, results, site, parseFloat);
      var details := RunContractorsParser(chunks[k], site, parseFloat);
      match details {
        case Failure(e) =>
          ParseChunksStops(chunks, k + 1, site, parseFloat);
          return Failure(ParseFailed(e));
        case Success(records) =>
          results := results + records;
      }
    }
    assert chunks[..|chunks|] == chunks;
    result := Success(results);
  }

  /** One turn of the chunk loop: a chunk that parses extends the results,
      one that raises ends the loop with its error. */
  lemma ParseChunksTurn(chunks: seq<seq<Record>>, k: nat, done: seq<Record>,
                        site: string -> Page, parseFloat: string -> Option<real>)
    requires k < |chunks| && ParseChunks(chunks[..k], site, parseFloat) == Success(done)
    ensures var b := ParseAll(chunks[k], site, parseFloat);
            ParseChunks(chunks[..k + 1], site, parseFloat)
            == if b.failure.Some? then Failure(b.failure.value) else Success(done + b.records)
  {
    assert chunks[..k + 1][..k] == chunks[..k];
  }

  // ---------------------------------------------------------------------------
  // main

  /** Gathering the first n pages and then page n + 1 extends the list by
      that page's links. */
  lemma PerPageNext(n: nat, links: int -> seq<Record>)
    ensures Concat(PerPage(n + 1, links)) == Concat(PerPage(n, links)) + links(n + 1)
  {
    assert PerPage(n + 1, links)[..n] == PerPage(n, links);
  }

  /** The first loop of `main`: one `run_gather_links` per listing page, in
      page order, each result extending `contractors`. */
  method GatherPages(pool: WebDriverPool, listingAt: string -> Listing) returns (gathered: seq<Record>)
    requires pool.Valid() && |pool.workers| > 0
    modifies pool
    ensures gathered == Gathered(listingAt)
    ensures pool.Valid() && multiset(pool.workers) == multiset(old(pool.workers))
    ensures pool.outstanding == old(pool.outstanding) && pool.quitLog == old(pool.quitLog)
  {
    gathered := [];
    for page := 1 to PAGE_COUNT + 1
      invariant pool.Valid() && multiset(pool.workers) == multiset(old(pool.workers))
      invariant pool.outstanding == old(pool.outstanding) && pool.quitLog == old(pool.quitLog)
      invariant gathered == Concat(PerPage(page - 1, LinksOf(listingAt)))
    {
      var url := PageUrl(page);
      var links, session, actions := RunGatherLinks(pool, url, listingAt(url));
      PerPageNext(page - 1, LinksOf(listingAt));
      gathered := gathered + links;
    }
  }

  /** `main`: gather every listing page with a one-session pool, close the
      pool, then run the parse phase on what was gathered. Every session the
      pool started is quit exactly once. */
  method Scrape(listingAt: string -> Listing, site: string -> Page,
                parseFloat: string -> Option<real>)
    returns (gathered: seq<Record>, quitLog: seq<Session>, result: Result<seq<Record>, MainError>)
    ensures gathered == Gathered(listingAt)
    ensures multiset(quitLog) == multiset(Spawned(POOL_SIZE))
    ensures result == ParsePhase(gathered, site, parseFloat)
  {
    var pool := new WebDriverPool(POOL_SIZE);
    var entered := pool.Enter();
    gathered := GatherPages(entered, listingAt);
    entered.Exit();
    quitLog := entered.quitLog;
    result := RunParsePhase(gathered, site, parseFloat);
  }
}
