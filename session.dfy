/** One search session (main.js:478-538, 728-874): the page sequencer that
    walks the sponsored candidates of a results page, and one province
    cycle of the controller's attempt loop. The browser is an oracle: what
    each step of the page does is an input. */
module Session {
  import opened Wrappers
  import opened Text
  import opened Oracle
  import opened ContentFilter
  import opened Geo
  import opened CoordinatePicking
  import opened Candidates

  /** `CONFIG.clicks.maxPerAd`, `CONFIG.clicks.maxAdsPerSearch` and
      `CONFIG.search.attemptsPerProvince`. */
  const MaxPerAd: nat := 1
  const MaxAdsPerSearch: nat := 5
  const AttemptsPerProvince: nat := 9

  // ---------------------------------------------------------------------
  // The page sequencer
  // ---------------------------------------------------------------------

  /** What the page does for one candidate that passed the filter:
      - `LookupThrows`: the element lookup rejects; it sits outside the
        `try`, so the whole sequencer throws;
      - `Missing`: no link element at the candidate's position;
      - `ClickThrows`: scrolling to or clicking the element throws;
      - `Landed`: the click registered; `afterClickThrows` says whether a
        later step before the return threw (navigation wait, analysis),
        `backOk` whether returning to the results succeeded. */
  datatype BrowserStep =
    | LookupThrows
    | Missing
    | ClickThrows
    | Landed(bodyText: string, afterClickThrows: bool, backOk: bool)

  /** What happened to one visited candidate. */
  datatype Outcome =
    | Rejected(reason: Reason)
    | AlreadyProcessed
    | LookupError
    | NotFound
    | ClickFailed
    | AnalysisFailed
    | Engaged(detected: seq<string>)
    | ReturnFailed(detected: seq<string>)

  /** The outcomes after which `clickedCount` and the per-ad counter went up. */
  predicate Counted(o: Outcome) {
    o.AnalysisFailed? || o.Engaged? || o.ReturnFailed?
  }

  /** The outcomes that end the walk: the `break` after a failed return and
      the exception out of the element lookup. */
  predicate Stops(o: Outcome) {
    o.LookupError? || o.ReturnFailed?
  }

  /** The walk ended because the element lookup threw: the exception leaves
      the sequencer and reaches the page `catch` of the attempt. */
  predicate EndsInLookupError(trace: seq<Outcome>) {
    trace != [] && trace[|trace| - 1].LookupError?
  }

  /** `ads.slice(0, maxAdsPerSearch)`. */
  function Cap(ads: seq<Ad>): (capped: seq<Ad>)
    ensures |capped| <= MaxAdsPerSearch && |capped| <= |ads|
    ensures capped == ads[..|capped|]
    ensures |ads| <= MaxAdsPerSearch ==> capped == ads
    ensures |ads| > MaxAdsPerSearch ==> |capped| == MaxAdsPerSearch
  {
    if |ads| <= MaxAdsPerSearch then ads else ads[..MaxAdsPerSearch]
  }

  /** The key of the per-search click counter. */
  function AdKey(i: nat): string {
    "ad_" + NatToString(i)
  }

  /** The decision the loop body takes for one candidate, given the clicks
      already counted under its key. */
  function CandidateOutcome(ad: Ad, step: BrowserStep, cfg: FilterConfig, currentClicks: nat): Outcome {
    var decision := ShouldClickAd(ad, cfg);
    if !decision.click then Rejected(decision.reason)
    else if currentClicks >= MaxPerAd then AlreadyProcessed
    else
      match step
      case LookupThrows => LookupError
      case Missing => NotFound
      case ClickThrows => ClickFailed
      case Landed(body, afterClickThrows, backOk) =>
        if afterClickThrows then AnalysisFailed
        else
          var detected := DetectKeywords(body, TargetKeywords);
          if backOk then Engaged(detected) else ReturnFailed(detected)
  }

  /** What each candidate would give, in order, with no click counted under
      its key yet. */
  function Outcomes(ads: seq<Ad>, browser: nat -> BrowserStep, cfg: FilterConfig): (os: seq<Outcome>)
    ensures |os| == |ads|
    ensures forall k :: 0 <= k < |ads| ==> os[k] == CandidateOutcome(ads[k], browser(k), cfg, 0)
  {
    seq(|ads|, k requires 0 <= k < |ads| => CandidateOutcome(ads[k], browser(k), cfg, 0))
  }

  /** The outcomes up to and including the first that stops the walk. */
  function UpToStop(os: seq<Outcome>): (w: seq<Outcome>)
    ensures |w| <= |os|
    decreases |os|
  {
    if os == [] then []
    else if Stops(os[0]) then [os[0]]
    else [os[0]] + UpToStop(os[1..])
  }

  /** The walk of the sequencer over `ads`: every candidate in order, up to
      and including the first that stops. */
  function Walk(ads: seq<Ad>, browser: nat -> BrowserStep, cfg: FilterConfig): seq<Outcome> {
    UpToStop(Outcomes(ads, browser, cfg))
  }

  function CountClicked(trace: seq<Outcome>): (n: nat)
    ensures n <= |trace|
    decreases |trace|
  {
    if trace == [] then 0
    else CountClicked(trace[..|trace| - 1]) + (if Counted(trace[|trace| - 1]) then 1 else 0)
  }

  /** The counter map `clickCountThisSearch` after the outcomes of `trace`. */
  function ClickMap(trace: seq<Outcome>): map<string, nat>
    decreases |trace|
  {
    if trace == [] then map[]
    else
      var m := ClickMap(trace[..|trace| - 1]);
      if Counted(trace[|trace| - 1]) then m[AdKey(|trace| - 1) := 1] else m
  }

  /** One more outcome: the click count moves exactly when it is counted. */
  lemma CountClickedAppend(trace: seq<Outcome>, o: Outcome)
    ensures CountClicked(trace + [o]) == CountClicked(trace) + (if Counted(o) then 1 else 0)
  {
    assert (trace + [o])[..|trace|] == trace;
  }

  /** One more outcome: the counter map gains the outcome's key exactly when
      it is counted. */
  lemma ClickMapAppend(trace: seq<Outcome>, o: Outcome)
    ensures ClickMap(trace + [o]) == if Counted(o) then ClickMap(trace)[AdKey(|trace|) := 1] else ClickMap(trace)
  {
    var t := trace + [o];
    assert t[..|t| - 1] == trace;
    assert t[|t| - 1] == o;
  }

  /** The counters of the loop after one more visit are those of the
      longer trace. */
  lemma CountersStep(trace: seq<Outcome>, i: nat, o: Outcome, counts: map<string, nat>, newCounts: map<string, nat>,
                     clicked: nat, newClicked: nat)
    requires i == |trace| && counts == ClickMap(trace) && clicked == CountClicked(trace) && AdKey(i) !in counts
    requires newCounts == if Counted(o) then counts[AdKey(i) := ClicksSoFar(counts, i) + 1] else counts
    requires newClicked == clicked + (if Counted(o) then 1 else 0)
    ensures newCounts == ClickMap(trace + [o]) && newClicked == CountClicked(trace + [o])
  {
    CountClickedAppend(trace, o);
    ClickMapAppend(trace, o);
  }

  lemma AdKeyInjective(i: nat, j: nat)
    ensures AdKey(i) == AdKey(j) <==> i == j
  {
    PrefixedNumberInjective("ad_", i, j);
  }

  /** The counter map only holds keys of positions already walked. */
  lemma {:induction false} ClickMapFresh(trace: seq<Outcome>, j: nat)
    requires j >= |trace|
    ensures AdKey(j) !in ClickMap(trace)
    decreases |trace|
  {
    if trace != [] {
      ClickMapFresh(trace[..|trace| - 1], j);
      AdKeyInjective(j, |trace| - 1);
    }
  }

  /** The counter map holds exactly one entry, of value 1, per counted
      outcome: as many entries as `clickedCount`, none above `maxPerAd`. */
  lemma {:induction false} ClickMapMatchesCount(trace: seq<Outcome>)
    ensures |ClickMap(trace).Keys| == CountClicked(trace)
    ensures forall k: nat :: k < |trace| ==> (AdKey(k) in ClickMap(trace) <==> Counted(trace[k]))
    ensures forall key :: key in ClickMap(trace) ==> ClickMap(trace)[key] == 1 <= MaxPerAd
    decreases |trace|
  {
    if trace != [] {
      var init := trace[..|trace| - 1];
      var last := |trace| - 1;
      ClickMapMatchesCount(init);
      ClickMapFresh(init, last);
      forall k: nat | k < last
        ensures AdKey(k) in ClickMap(trace) <==> Counted(trace[k])
      {
        AdKeyInjective(k, last);
        assert trace[k] == init[k];
      }
      if Counted(trace[last]) {
        assert ClickMap(trace).Keys == ClickMap(init).Keys + {AdKey(last)};
      }
    }
  }

  /** A walk is a prefix of the outcomes, only its last outcome may stop
      it, and it ends before the outcomes do only on one that stops. */
  lemma {:induction false} UpToStopShape(os: seq<Outcome>)
    ensures var w := UpToStop(os);
      w == os[..|w|]
      && (forall k :: 0 <= k < |w| - 1 ==> !Stops(w[k]))
      && (|w| < |os| ==> |w| > 0 && Stops(w[|w| - 1]))
    decreases |os|
  {
    if os != [] && !Stops(os[0]) {
      UpToStopShape(os[1..]);
      var rest := UpToStop(os[1..]);
      var w := UpToStop(os);
      assert w == [os[0]] + rest;
      assert w == os[..|w|] by {
        assert rest == os[1..][..|rest|];
        assert os[..|w|] == [os[0]] + os[1..][..|rest|];
      }
      forall k | 1 <= k < |w| - 1
        ensures !Stops(w[k])
      {
        assert w[k] == rest[k - 1];
      }
      if |w| < |os| {
        assert w[|w| - 1] == rest[|rest| - 1];
      }
    }
  }

  /** One step of the walk: once the trace has reached position `i`, it
      grows by the outcome there and either ends with it or goes on. */
  lemma WalkAdvance(os: seq<Outcome>, trace: seq<Outcome>, i: nat)
    requires i < |os| && trace + UpToStop(os[i..]) == UpToStop(os)
    ensures Stops(os[i]) ==> trace + [os[i]] == UpToStop(os)
    ensures !Stops(os[i]) ==> (trace + [os[i]]) + UpToStop(os[i + 1..]) == UpToStop(os)
  {
    assert os[i..][0] == os[i];
    assert os[i..][1..] == os[i + 1..];
    if !Stops(os[i]) {
      var rest := UpToStop(os[i + 1..]);
      assert UpToStop(os[i..]) == [os[i]] + rest;
      assert (trace + [os[i]]) + rest == trace + ([os[i]] + rest);
    }
  }

  /** The sequencer visits at most `maxAdsPerSearch` candidates, in their
      original order, the k-th with the browser's k-th behaviour; it stops
      before the end of the capped list only right after a failed return
      (or a lookup that threw), and nothing is visited after that. */
  lemma SequencerVisitsInOrder(ads: seq<Ad>, browser: nat -> BrowserStep, cfg: FilterConfig)
    ensures |Walk(Cap(ads), browser, cfg)| <= MaxAdsPerSearch
    ensures |Walk(Cap(ads), browser, cfg)| <= |ads|
    ensures forall k :: 0 <= k < |Walk(Cap(ads), browser, cfg)| ==>
              Walk(Cap(ads), browser, cfg)[k] == CandidateOutcome(ads[k], browser(k), cfg, 0)
    ensures forall k :: 0 <= k < |Walk(Cap(ads), browser, cfg)| - 1 ==> !Stops(Walk(Cap(ads), browser, cfg)[k])
    ensures |Walk(Cap(ads), browser, cfg)| < |Cap(ads)| ==>
              Stops(Walk(Cap(ads), browser, cfg)[|Walk(Cap(ads), browser, cfg)| - 1])
  {
    var capped := Cap(ads);
    var os := Outcomes(capped, browser, cfg);
    UpToStopShape(os);
    var w := UpToStop(os);
    forall k | 0 <= k < |w|
      ensures w[k] == CandidateOutcome(ads[k], browser(k), cfg, 0)
    {
      assert w[k] == os[k];
      assert capped[k] == ads[k];
    }
  }

  /** With `maxPerAd` at least one and keys made from positions, the
      "already processed" branch is dead: no candidate is ever skipped as
      already clicked in the same search. */
  lemma NeverAlreadyProcessed(ad: Ad, step: BrowserStep, cfg: FilterConfig)
    ensures CandidateOutcome(ad, step, cfg, 0) != AlreadyProcessed
  {
  }

  /** A candidate the filter rejects, or whose element is missing or whose
      click threw, leaves both counters as they were. */
  lemma UncountedOutcomes(ad: Ad, step: BrowserStep, cfg: FilterConfig)
    ensures !ShouldClickAd(ad, cfg).click ==> !Counted(CandidateOutcome(ad, step, cfg, 0))
    ensures step.Missing? || step.ClickThrows? || step.LookupThrows? ==> !Counted(CandidateOutcome(ad, step, cfg, 0))
    ensures Counted(CandidateOutcome(ad, step, cfg, 0)) <==> ShouldClickAd(ad, cfg).click && step.Landed?
  {
  }

  /** `clickedCount` never exceeds the number of candidates visited, and so
      never exceeds `maxAdsPerSearch`. */
  lemma ClickedCountBounded(ads: seq<Ad>, browser: nat -> BrowserStep, cfg: FilterConfig)
    ensures CountClicked(Walk(Cap(ads), browser, cfg)) <= |Walk(Cap(ads), browser, cfg)| <= MaxAdsPerSearch
  {
  }

  // ---------------------------------------------------------------------
  // The controller
  // ---------------------------------------------------------------------

  /** The options a session is built with. */
  datatype Options = Options(regions: seq<Region>, mode: RegionMode, province: string,
                             coordMode: CoordMode, filter: FilterConfig)

  /** What a browser tab does during one attempt: `newPage` throws, a step
      before the candidate walk throws, or the results page shows the ads
      the four heuristics of `_collectSponsoredLinks` find (labelled
      containers, the top block, redirect links, ad blocks) and the
      candidates then behave as `browser` says. */
  datatype PageRun =
    | NewPageFails
    | PageFails
    | ResultsPage(labelled: seq<Ad>, topBlock: seq<Ad>, redirects: seq<Ad>, adBlocks: seq<Ad>,
                  browser: nat -> BrowserStep)

  /** How one attempt ended: through the outer `catch`, through the page
      `catch` (a step before the walk threw, or an element lookup threw
      during it), with no sponsored results, or with the candidate walk
      completed. */
  datatype AttemptResult =
    | AttemptError
    | PageError
    | NoAds
    | AdsProcessed(trace: seq<Outcome>, clicked: nat)

  datatype Attempt = Attempt(number: nat, coord: Coordinate, result: AttemptResult)

  /** How a results page with the collected sponsored `ads` ends. */
  function WalkResult(ads: seq<Ad>, browser: nat -> BrowserStep, cfg: FilterConfig): AttemptResult {
    if ads == [] then NoAds
    else
      var trace := Walk(Cap(ads), browser, cfg);
      if EndsInLookupError(trace) then PageError else AdsProcessed(trace, CountClicked(trace))
  }

  function AttemptResultOf(run: PageRun, cfg: FilterConfig): AttemptResult {
    match run
    case NewPageFails => AttemptError
    case PageFails => PageError
    case ResultsPage(labelled, topBlock, redirects, adBlocks, browser) =>
      WalkResult(Dedup(labelled + topBlock + redirects + adBlocks), browser, cfg)
  }

  /** Some outcome is a lookup error and nothing before it stops the walk. */
  predicate LookupBeforeStop(os: seq<Outcome>) {
    exists k :: 0 <= k < |os| && os[k].LookupError? && forall j :: 0 <= j < k ==> !Stops(os[j])
  }

  /** A walk over at least one outcome ends in a lookup error exactly when
      one is reached before any stop; otherwise it holds none. */
  lemma UpToStopLookup(os: seq<Outcome>)
    requires os != []
    ensures EndsInLookupError(UpToStop(os)) <==> LookupBeforeStop(os)
    ensures !EndsInLookupError(UpToStop(os)) ==>
              forall k :: 0 <= k < |UpToStop(os)| ==> !UpToStop(os)[k].LookupError?
  {
    var w := UpToStop(os);
    UpToStopShape(os);
    assert |w| > 0;
    if EndsInLookupError(w) {
      var k := |w| - 1;
      assert os[k] == w[k];
      forall j | 0 <= j < k
        ensures !Stops(os[j])
      {
        assert os[j] == w[j];
      }
    }
    if LookupBeforeStop(os) {
      var k :| 0 <= k < |os| && os[k].LookupError? && forall j :: 0 <= j < k ==> !Stops(os[j]);
      if |w| > k + 1 {
        assert false;
      } else if |w| == k + 1 {
        assert w[|w| - 1] == os[k];
      }
    }
  }

  /** A throwing element lookup ends the attempt in the page `catch`: on a
      page with sponsored results the attempt is a page error exactly when
      some capped candidate's lookup throws before anything stopped the
      walk, and a walk reported as completed holds no lookup error. */
  lemma LookupThrowIsPageError(ads: seq<Ad>, browser: nat -> BrowserStep, cfg: FilterConfig)
    requires ads != []
    ensures WalkResult(ads, browser, cfg) == PageError <==> LookupBeforeStop(Outcomes(Cap(ads), browser, cfg))
    ensures WalkResult(ads, browser, cfg).AdsProcessed? ==>
              forall k :: 0 <= k < |Walk(Cap(ads), browser, cfg)| ==> !Walk(Cap(ads), browser, cfg)[k].LookupError?
  {
    var os := Outcomes(Cap(ads), browser, cfg);
    assert |os| > 0;
    UpToStopLookup(os);
  }


  /** The cursor map after `j` attempts in `provincia`, from `m0`: in
      sequential mode the province's cursor has taken `j` steps, otherwise
      the map is untouched; no other province's cursor moves. */
  ghost predicate CursorsAfter(m0: map<string, nat>, m: map<string, nat>, provincia: Region, mode: CoordMode, j: nat) {
    (provincia.coords != [] && mode == Sequential ==>
       CursorOf(m, provincia.name) == CursorAfter(|provincia.coords|, CursorOf(m0, provincia.name), j))
    && (provincia.coords == [] || mode != Sequential ==> m == m0)
    && forall key :: key != provincia.name ==> CursorOf(m, key) == CursorOf(m0, key)
  }

  /** One more attempt, with the cursor update `PickCoord` makes, keeps
      `CursorsAfter` one step further on. */
  lemma CursorsStep(m0: map<string, nat>, m1: map<string, nat>, m2: map<string, nat>,
                    provincia: Region, mode: CoordMode, j: nat)
    requires CursorsAfter(m0, m1, provincia, mode, j)
    requires provincia.coords != [] && mode == Sequential ==>
               m2 == m1[provincia.name := NextCursor(CursorOf(m1, provincia.name), |provincia.coords|)]
    requires provincia.coords == [] || mode != Sequential ==> m2 == m1
    ensures CursorsAfter(m0, m2, provincia, mode, j + 1)
  {
  }

  /** What the `k`-th attempt of a cycle in `provincia` records: its
      number, how it ended, and its coordinate — jittered around the
      province's centre when it has no coordinates, otherwise the one its
      draw selects, in sequential mode with the cursor left by `k` earlier
      draws from `c0`. */
  ghost predicate AttemptFits(a: Attempt, k: nat, provincia: Region, d: Draw, run: PageRun,
                              filter: FilterConfig, coordMode: CoordMode, c0: nat)
  {
    var n := |provincia.coords|;
    a.number == k + 1 && a.result == AttemptResultOf(run, filter)
    && (n == 0 ==> a.coord == Jittered(provincia, d))
    && (n > 0 ==> a.coord in provincia.coords)
    && (n > 0 ==> ValidDraw(d) && a.coord == provincia.coords[ChoiceIndex(provincia.coords, coordMode, CursorAfter(n, c0, k), d)])
  }

  /** An attempt made at the cursor map `m`, reached after `k` attempts
      from `m0`, fits as the `k`-th attempt of the cycle. */
  lemma AttemptFitsAfter(a: Attempt, k: nat, provincia: Region, d: Draw, run: PageRun,
                         filter: FilterConfig, coordMode: CoordMode, m0: map<string, nat>, m: map<string, nat>)
    requires CursorsAfter(m0, m, provincia, coordMode, k) && ValidDraw(d)
    requires a.number == k + 1 && a.result == AttemptResultOf(run, filter)
    requires provincia.coords == [] ==> a.coord == Jittered(provincia, d)
    requires provincia.coords != [] ==>
               a.coord == provincia.coords[ChoiceIndex(provincia.coords, coordMode, CursorOf(m, provincia.name), d)]
    ensures AttemptFits(a, k, provincia, d, run, filter, coordMode, CursorOf(m0, provincia.name))
  {
    var n := |provincia.coords|;
    if n > 0 && coordMode != Sequential {
      assert ChoiceIndex(provincia.coords, coordMode, CursorOf(m, provincia.name), d)
          == ChoiceIndex(provincia.coords, coordMode, CursorAfter(n, CursorOf(m0, provincia.name), k), d);
    }
  }

  /** `clickCountThisSearch[adKey] || 0` for the candidate at position `i`. */
  function ClicksSoFar(counts: map<string, nat>, i: nat): nat {
    if AdKey(i) in counts then counts[AdKey(i)] else 0
  }

  /** One candidate of the sequencer loop, at position `i`: the filter's
      decision, the per-position cap, then the browser's behaviour. The
      counters move only once the click went through. */
  method VisitCandidate(ad: Ad, i: nat, step: BrowserStep, cfg: FilterConfig,
                        counts: map<string, nat>, clicked: nat)
    returns (outcome: Outcome, newCounts: map<string, nat>, newClicked: nat)
    ensures outcome == CandidateOutcome(ad, step, cfg, ClicksSoFar(counts, i))
    ensures newCounts == if Counted(outcome) then counts[AdKey(i) := ClicksSoFar(counts, i) + 1] else counts
    ensures newClicked == clicked + (if Counted(outcome) then 1 else 0)
  {
    newCounts, newClicked := counts, clicked;
    var decision := ShouldClickAd(ad, cfg);
    var adKey := AdKey(i);
    var currentClicks := ClicksSoFar(counts, i);
    if !decision.click {
      outcome := Rejected(decision.reason);
    } else if currentClicks >= MaxPerAd {
      outcome := AlreadyProcessed;
    } else {
      match step {
        case LookupThrows =>
          outcome := LookupError;
        case Missing =>
          outcome := NotFound;
        case ClickThrows =>
          outcome := ClickFailed;
        case Landed(body, afterClickThrows, backOk) =>
          newCounts := counts[adKey := currentClicks + 1];
          newClicked := clicked + 1;
          if afterClickThrows {
            outcome := AnalysisFailed;
          } else {
            var detected := DetectKeywords(body, TargetKeywords);
            outcome := if backOk then Engaged(detected) else ReturnFailed(detected);
          }
      }
    }
  }

  /** `SearchController`: the session options, the province and coordinate
      of the current attempt, and the coordinate picker whose cursor map
      the whole process shares. */
  class SearchController {
    const opts: Options
    const fold: string -> string
    const picker: CoordinatePicker
    var currentProvince: Option<Region>
    var currentCoord: Option<Coordinate>

    constructor (opts: Options, fold: string -> string, picker: CoordinatePicker)
      ensures this.opts == opts && this.fold == fold && this.picker == picker
      ensures currentProvince == None && currentCoord == None
    {
      this.opts := opts;
      this.fold := fold;
      this.picker := picker;
      currentProvince := None;
      currentCoord := None;
    }

    /** `_processAdsSequentially`: the capped list walked in order, with the
        per-position click counter and the total click count. */
    method ProcessAdsSequentially(ads: seq<Ad>, browser: nat -> BrowserStep, cfg: FilterConfig)
      returns (trace: seq<Outcome>, clickedCount: nat, clickCountThisSearch: map<string, nat>)
      ensures trace == Walk(Cap(ads), browser, cfg)
      ensures clickedCount == CountClicked(trace)
      ensures clickCountThisSearch == ClickMap(trace)
    {
      clickCountThisSearch := map[];
      var adsToProcess := if |ads| <= MaxAdsPerSearch then ads else ads[..MaxAdsPerSearch];
      assert adsToProcess == Cap(ads);
      ghost var os := Outcomes(adsToProcess, browser, cfg);
      clickedCount := 0;
      trace := [];
      var i := 0;
      while i < |adsToProcess|
        invariant 0 <= i <= |adsToProcess| && |trace| == i
        invariant trace + UpToStop(os[i..]) == UpToStop(os)
        invariant clickedCount == CountClicked(trace)
        invariant clickCountThisSearch == ClickMap(trace)
        decreases |adsToProcess| - i
      {
        ClickMapFresh(trace, i);
        ghost var counts, clicked := clickCountThisSearch, clickedCount;
        var outcome;
        outcome, clickCountThisSearch, clickedCount := VisitCandidate(adsToProcess[i], i, browser(i), cfg, clickCountThisSearch, clickedCount);
        assert outcome == os[i];
        WalkAdvance(os, trace, i);
        CountersStep(trace, i, outcome, counts, clickCountThisSearch, clicked, clickedCount);
        trace := trace + [outcome];
        if Stops(outcome) {
          return;
        }
        i := i + 1;
      }
      assert os[i..] == [];
      assert trace + [] == trace;
    }

    /** The body of one attempt once the tab is open: the search, and the
        candidate walk when the results list sponsored ads; any failure
        inside ends in the page `catch`. */
    method SearchOnPage(run: PageRun) returns (result: AttemptResult)
      requires !run.NewPageFails?
      ensures result == AttemptResultOf(run, opts.filter)
    {
      match run {
        case PageFails =>
          result := PageError;
        case ResultsPage(labelled, topBlock, redirects, adBlocks, browser) =>
          var ads := CollectSponsoredLinks(labelled, topBlock, redirects, adBlocks);
          if |ads| > 0 {
            var trace, clicked, _ := ProcessAdsSequentially(ads, browser, opts.filter);
            if EndsInLookupError(trace) {
              result := PageError;
            } else {
              result := AdsProcessed(trace, clicked);
            }
          } else {
            result := NoAds;
          }
      }
    }

    /** One attempt of the cycle: a coordinate is drawn and recorded as the
        current one, then the tab is opened and searched. A failing
        `newPage` lands in the attempt's `catch`. */
    method RunAttempt(provincia: Region, number: nat, d: Draw, run: PageRun) returns (a: Attempt)
      requires ValidDraw(d)
      modifies this, picker
      ensures a.number == number + 1 && a.result == AttemptResultOf(run, opts.filter)
      ensures currentCoord == Some(a.coord) && currentProvince == old(currentProvince)
      ensures provincia.coords == [] ==> a.coord == Jittered(provincia, d)
      ensures provincia.coords != [] ==> a.coord in provincia.coords
      ensures provincia.coords != [] ==>
                a.coord == provincia.coords[ChoiceIndex(provincia.coords, opts.coordMode,
                                                        CursorOf(old(picker.seqIndexByProvince), provincia.name), d)]
      ensures provincia.coords != [] && opts.coordMode == Sequential ==>
                a.coord == provincia.coords[CursorOf(old(picker.seqIndexByProvince), provincia.name) % |provincia.coords|]
                && picker.seqIndexByProvince == old(picker.seqIndexByProvince)[provincia.name :=
                     NextCursor(CursorOf(old(picker.seqIndexByProvince), provincia.name), |provincia.coords|)]
      ensures provincia.coords == [] || opts.coordMode != Sequential ==>
                picker.seqIndexByProvince == old(picker.seqIndexByProvince)
      ensures provincia.coords != [] && opts.coordMode == Sequential ==>
                CursorOf(picker.seqIndexByProvince, provincia.name)
                == NextCursor(CursorOf(old(picker.seqIndexByProvince), provincia.name), |provincia.coords|)
      ensures forall key :: key != provincia.name ==>
                CursorOf(picker.seqIndexByProvince, key) == CursorOf(old(picker.seqIndexByProvince), key)
    {
      var coord := picker.PickCoord(provincia, opts.coordMode, d);
      currentCoord := Some(coord);
      if run.NewPageFails? {
        a := Attempt(number + 1, coord, AttemptError);
      } else {
        var result := SearchOnPage(run);
        a := Attempt(number + 1, coord, result);
      }
    }

    /** The attempt loop of a province cycle: exactly `attemptsPerProvince`
        attempts, each counted once, whether it ended normally or through
        the attempt's `catch`. */
    method AttemptLoop(provincia: Region, draws: seq<Draw>, pages: seq<PageRun>)
      returns (attempts: nat, report: seq<Attempt>)
      requires |draws| == AttemptsPerProvince && |pages| == AttemptsPerProvince
      requires forall k :: 0 <= k < |draws| ==> ValidDraw(draws[k])
      modifies this, picker
      ensures attempts == AttemptsPerProvince && |report| == attempts
      ensures currentProvince == old(currentProvince)
      ensures currentCoord == Some(report[|report| - 1].coord)
      ensures forall k :: 0 <= k < |report| ==>
                AttemptFits(report[k], k, provincia, draws[k], pages[k], opts.filter, opts.coordMode,
                            CursorOf(old(picker.seqIndexByProvince), provincia.name))
      ensures provincia.coords != [] && opts.coordMode == Sequential ==>
                CursorOf(picker.seqIndexByProvince, provincia.name)
                == CursorAfter(|provincia.coords|, CursorOf(old(picker.seqIndexByProvince), provincia.name), AttemptsPerProvince)
      ensures provincia.coords == [] || opts.coordMode != Sequential ==>
                picker.seqIndexByProvince == old(picker.seqIndexByProvince)
      ensures forall key :: key != provincia.name ==>
                CursorOf(picker.seqIndexByProvince, key) == CursorOf(old(picker.seqIndexByProvince), key)
    {
      ghost var m0 := picker.seqIndexByProvince;
      ghost var c0 := CursorOf(m0, provincia.name);
      attempts := 0;
      report := [];
      while attempts < AttemptsPerProvince
        invariant 0 <= attempts <= AttemptsPerProvince && |report| == attempts
        invariant currentProvince == old(currentProvince)
        invariant attempts > 0 ==> currentCoord == Some(report[attempts - 1].coord)
        invariant forall k :: 0 <= k < attempts ==>
                    AttemptFits(report[k], k, provincia, draws[k], pages[k], opts.filter, opts.coordMode, c0)
        invariant CursorsAfter(m0, picker.seqIndexByProvince, provincia, opts.coordMode, attempts)
      {
        ghost var m1 := picker.seqIndexByProvince;
        var a := RunAttempt(provincia, attempts, draws[attempts], pages[attempts]);
        AttemptFitsAfter(a, attempts, provincia, draws[attempts], pages[attempts], opts.filter, opts.coordMode, m0, m1);
        CursorsStep(m0, m1, picker.seqIndexByProvince, provincia, opts.coordMode, attempts);
        report := report + [a];
        attempts := attempts + 1;
      }
    }

    /** One province cycle of `run()`: a province is picked and becomes the
        current one, then the attempt loop runs. `u`, `draws` and `pages`
        are the random draws and the browser's behaviour per attempt. The
        loop never ends early, so the "maximum attempts" warning is always
        given. */
    method RunProvinceCycle(u: real, draws: seq<Draw>, pages: seq<PageRun>)
      returns (attempts: nat, report: seq<Attempt>, exhausted: bool)
      requires IsUnit(u)
      requires |draws| == AttemptsPerProvince && |pages| == AttemptsPerProvince
      requires forall k :: 0 <= k < |draws| ==> ValidDraw(draws[k])
      modifies this, picker
      ensures attempts == AttemptsPerProvince && |report| == attempts && exhausted
      ensures currentProvince == Some(PickProvince(opts.regions, opts.mode, opts.province, fold, u))
      ensures currentCoord == Some(report[|report| - 1].coord)
      ensures forall k :: 0 <= k < |report| ==>
                AttemptFits(report[k], k, currentProvince.value, draws[k], pages[k], opts.filter, opts.coordMode,
                            CursorOf(old(picker.seqIndexByProvince), currentProvince.value.name))
      ensures currentProvince.value.coords != [] && opts.coordMode == Sequential ==>
                CursorOf(picker.seqIndexByProvince, currentProvince.value.name)
                == CursorAfter(|currentProvince.value.coords|,
                               CursorOf(old(picker.seqIndexByProvince), currentProvince.value.name), AttemptsPerProvince)
      ensures currentProvince.value.coords == [] || opts.coordMode != Sequential ==>
                picker.seqIndexByProvince == old(picker.seqIndexByProvince)
      ensures forall key :: key != currentProvince.value.name ==>
                CursorOf(picker.seqIndexByProvince, key) == CursorOf(old(picker.seqIndexByProvince), key)
    {
      var provincia := PickProvince(opts.regions, opts.mode, opts.province, fold, u);
      currentProvince := Some(provincia);
      attempts, report := AttemptLoop(provincia, draws, pages);
      exhausted := attempts >= AttemptsPerProvince;
    }
  }
}
