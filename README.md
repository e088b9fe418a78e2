# SponsorKill, modelled in Dafny

SponsorKill drives a browser (headed by default) through Google searches. The searches
run from spoofed geolocations and, optionally, through proxies. On each
results page it finds the sponsored results and clicks them one after
another. Before each click it checks a configurable blacklist and
whitelist. It counts clicks per ad and per search. After each click it
scans the landing page for target keywords. A supervisor script (`multi.js`)
runs a fleet of such sessions: one copy of the program per worker
directory, started with a fixed delay between launches, with each worker's
output relayed under a coloured prefix and a summary of exit statuses at
the end.

This project models the logic of both scripts:

- `main.js`, the search session. The model covers:
  - the ad filter (`isBlacklisted`, `isWhitelisted`, `shouldClickAd`);
  - loading a country's geodata with its fallback record;
  - choosing a province;
  - choosing a coordinate: weighted, sequential with a per-province cursor, or random;
  - parsing the proxy string;
  - the ad identifier `getAdIdentifier` (main.js:226-229). Nothing in main.js calls it: the per-ad click counter uses the key `ad_<i>` (main.js:749) instead;
  - collecting and de-duplicating sponsored links;
  - detecting keywords;
  - the page sequencer `_processAdsSequentially`;
  - one province cycle of the controller's attempt loop.
- `multi.js`, the fleet supervisor. The model covers:
  - the colour palette;
  - provisioning the worker list;
  - building each worker's argument vector;
  - the staggered launch;
  - the line-wise output relay;
  - the final status summary.

The browser, the file system, child processes and `Math.random()` are not
modelled as code. Whatever they produce enters the model as an input:
- a `BrowserStep` per candidate, or a `PageRun` per attempt;
- the parsed JSON of a geodata file;
- a `provisioned` predicate for the worker directories;
- a `WorkerEnd` per child process;
- a `lag` per launch: the time the spawn, the log line and a late timer add to the stagger;
- a real number `u` with `0 <= u < 1` for each random draw.

Files:

| file | module | models |
|---|---|---|
| `wrappers.dfy` | `Wrappers` | `Option` |
| `text.dfy` | `Text` | `toLowerCase`, `includes`, `split`/`join`, `trim`, decimal rendering of numbers |
| `oracle.dfy` | `Oracle` | `Math.floor(Math.random() * n)` as an index |
| `content_filter.dfy` | `ContentFilter` | the blacklist/whitelist decision |
| `geo.dfy` | `Geo` | `loadCountryGeo`, `pickProvince` |
| `coordinate_picker.dfy` | `CoordinatePicking` | `pickCoord` and its weighted and sequential modes |
| `proxy.dfy` | `Proxy` | `parseProxy` |
| `candidates.dfy` | `Candidates` | `getAdIdentifier`, `_collectSponsoredLinks`, keyword detection |
| `session.dfy` | `Session` | `_processAdsSequentially`, the page attempt inside `run()` (main.js:502-528) and its attempt loop |
| `fleet.dfy` | `Fleet` | `multi.js`: workers, arguments, launch, output relay, summary |

### Where the code is followed rather than the design description

- `parseProxy` returns "no proxy" only for the empty string. Its `catch` is
  unreachable. A string with no separator, such as `"badformat"`, is not
  rejected: it becomes the server `http://badformat:undefined`
  (`Proxy.NoSeparatorYieldsUndefinedPort`).
- The attempt loop has no early exit. It always makes
  `attemptsPerProvince` (9) attempts and then reports the province as
  exhausted, whether or not any attempt found candidates
  (`Session.SearchController.RunProvinceCycle`).
- The per-ad click cap is keyed by the candidate's position on the page.
  Positions are distinct and the map is new for every page, so the
  "already processed" branch can never be taken
  (`Session.NeverAlreadyProcessed`).
- The element lookup (`page.evaluateHandle`) sits outside the per-candidate
  `try`. If it throws, the whole sequencer stops and the page's `catch`
  takes over. In the model the walk then ends in `LookupError`, and the
  attempt's result is a page error, not a completed walk
  (`Session.LookupThrowIsPageError`). It is not recovered locally.

## Model

| member | source | states |
|---|---|---|
| Text.LowerHasNoUpper | main.js:248-249 | lower-casing keeps the length and leaves no upper-case letter |
| Text.LowerIdempotent | main.js:248-249 | lower-casing twice is lower-casing once |
| Text.Contains | main.js:252 | `includes` holds exactly when the substring occurs at some position |
| Text.JoinSplit | main.js:387-391 | joining the parts of a split with the separator gives back the string |
| Text.SplitJoin | main.js:387-391 | splitting a join of separator-free parts gives back the parts |
| Text.SplitHasSeparator | main.js:386 | a string splits into two or more parts exactly when it holds the separator |
| Text.SplitAtFirst | main.js:387 | split divides at the first separator and then continues |
| Text.SplitLeads | main.js:387 | the first piece of a split is the text before the first separator, or the whole string |
| Text.SplitSecondLeads | main.js:387-391 | with a separator present, the second piece is the text between the first separator and the next |
| Text.Trim | multi.js:205 | the trimmed text is a slice of the input with only white space before and after it, has no white space at either end, and is empty exactly when the input is blank |
| Text.TrimUnpadded | multi.js:205 | a string without white space at either end is its own trim |
| Text.ParseNatToString | main.js:228 | reading back a number's decimal rendering gives the number |
| Text.NatToStringInjective | main.js:228 | different indices render as different text |
| Text.IntToStringInjective | multi.js:398 | different exit codes, negative ones included, render as different text |
| Text.PrefixedNumberInjective | main.js:749 | keys `ad_<i>` are equal exactly when the indices are |
| Oracle.RandomIndex | main.js:339 | `Math.floor(Math.random() * n)` is a valid index |
| Oracle.RandomIndexInterval | main.js:339 | the index is k exactly when `u*n` lies in `[k, k+1)` |
| Oracle.ScaledAtMost | main.js:361 | `Math.random() * total` lies between 0 and the total |
| ContentFilter.BlockedBy | main.js:256-272 | a list blocks exactly when some non-empty entry occurs in the text |
| ContentFilter.AllowedBy | main.js:283-289 | a whitelist accepts exactly when some entry occurs in the text |
| ContentFilter.IsBlacklisted | main.js:247-275 | ad redirects (`/aclk?`, `/url?`) are never blacklisted; otherwise blacklisted exactly when a URL, title or domain entry matches |
| ContentFilter.IsWhitelisted | main.js:277-292 | a disabled whitelist accepts all; an enabled one accepts exactly when a domain or keyword entry matches |
| ContentFilter.ShouldClickAd | main.js:294-298 | the reason is Blacklist, Whitelist or Ok exactly in the three cases, and the ad is clicked exactly when the reason is Ok |
| ContentFilter.EmptyEntriesBlockNothing | main.js:256-272 | blacklists of empty entries block no ad |
| ContentFilter.ShippedFilterAcceptsAll | main.js:23-37 | the shipped configuration clicks every ad |
| ContentFilter.ClassificationIgnoresCase | main.js:248-249 | the decision is the same for the lower-cased ad |
| ContentFilter.RedirectNeverBlacklisted | main.js:252-254 | a redirect link is decided by the whitelist alone |
| Geo.BackfillProperties | main.js:306-315 | a falsy centre latitude or longitude is taken from the first coordinate when there is one, a truthy one is kept, nothing else changes, and backfilling twice changes nothing |
| Geo.LoadCountryGeo | main.js:300-323 | an unreadable file gives, for any requested code, a record under that code holding exactly the built-in region, which has coordinates; otherwise every region is backfilled and nothing else changes |
| Geo.FindRegion | main.js:332-335 | the result is the first region whose normalised name equals or contains the normalised target, or none when no region matches |
| Geo.PickProvince | main.js:325-340 | no regions gives the default; a fixed name picks the first match, or a random region when there is no match; rotating mode picks a random region |
| CoordinatePicking.TotalWeightAppend | main.js:360 | the total weight adds up weight by weight, a missing or zero weight counting as 1 |
| CoordinatePicking.FirstCovering | main.js:361-365 | the result is the first coordinate whose running weight reaches the target, or none |
| CoordinatePicking.FirstCoveringExactly | main.js:361-365 | the characterisation of the first covering index, in both directions |
| CoordinatePicking.PrefixMonotone | main.js:360-363 | with positive weights the running sum never decreases |
| CoordinatePicking.WeightedInterval | main.js:361-365 | coordinate k is chosen exactly when the target falls in its slice of the running sum, and the slice's width is its weight |
| CoordinatePicking.WeightedAlwaysPicks | main.js:359-366 | with positive weights the weighted loop always returns a coordinate |
| CoordinatePicking.PickWeighted | main.js:359-366 | the loop returns the first covering coordinate, or none |
| CoordinatePicking.SequentialVisitsInOrder | main.js:352-357 | after j sequential picks the cursor has advanced by j modulo the number of coordinates |
| CoordinatePicking.ChoiceIndex | main.js:342-369 | the chosen index is within the coordinate list in every mode |
| CoordinatePicking.CoordinatePicker.constructor | main.js:200 | the picker starts with no cursors |
| CoordinatePicking.CoordinatePicker.PickCoord | main.js:342-369 | a province without coordinates gives a point jittered around its centre; otherwise a listed coordinate; sequential mode takes the cursor's coordinate and advances that province's cursor by one; other modes leave the cursors alone |
| CoordinatePicking.SequentialDraws | main.js:352-357 | sequential picks visit the coordinates in order, round-robin |
| Proxy.ParseProxy | main.js:382-398 | no proxy exactly for the empty string; otherwise the server is `http://host:port` with host and port the first two colon-separated fields of the whole string, or, when it holds `@`, of the text between the first `@` and the next |
| Proxy.AuthFormRoundTrip | main.js:386-393 | `user:pass@host:port` reads back as its host, port and credentials |
| Proxy.ColonFormRoundTrip | main.js:390-393 | `host:port:user:pass` reads back as its host, port and credentials |
| Proxy.HostPortOnly | main.js:391-393 | `host:port` reads back with no credentials |
| Proxy.NoSeparatorYieldsUndefinedPort | main.js:391-393 | a string without separators becomes a server with port `undefined` |
| Candidates.KeepAlnum | main.js:227 | stripping keeps exactly the letters and digits; a single character is kept exactly when it is one |
| Candidates.KeepAlnumAppend | main.js:227 | stripping works character by character, so order and repeats are kept |
| Candidates.AdIdentifierIndex | main.js:226-229 | the identifier starts with the ad's index, which reads back |
| Candidates.AdIdentifierSeparatesPositions | main.js:226-229 | ads at different positions get different identifiers |
| Candidates.Dedup | main.js:671-722 | the de-duplicated list has the same members as the input and no repeats |
| Candidates.DedupKeepsFirstSeenOrder | main.js:671-722 | links keep the order of their first appearance |
| Candidates.DedupOfDistinct | main.js:671-722 | a list without repeats is kept as it is |
| Candidates.CollectSponsoredLinks | main.js:669-724 | the collected links are the four heuristics' results, concatenated in order and de-duplicated |
| Candidates.DetectKeywords | main.js:813-815 | a keyword is reported exactly when it occurs in the page text, ignoring case |
| Candidates.DetectKeywordsAppend | main.js:813-815 | keywords are reported in their configured order, repeats included |
| Candidates.DetectionIgnoresCase | main.js:813-815 | lower-casing the page first changes nothing |
| Session.Cap | main.js:730 | the first five candidates when there are more than five, all of them otherwise |
| Session.UpToStopShape | main.js:843-853 | the walk is a prefix of the per-candidate outcomes; only its last outcome can stop it, and it ends early only on a stop |
| Session.CountClickedAppend | main.js:788-789 | the click counter grows by one exactly for a counted outcome |
| Session.ClickMapAppend | main.js:788 | a counted outcome records its position's key with one click |
| Session.AdKeyInjective | main.js:749 | distinct positions have distinct keys |
| Session.ClickMapFresh | main.js:749-750 | a position's key is absent before that position is visited |
| Session.ClickMapMatchesCount | main.js:749-789 | the per-ad map holds one key with count 1 (the cap) per counted outcome, and its size equals the click counter |
| Session.SequencerVisitsInOrder | main.js:730-871 | the walk visits candidates in order, at most five, and stops early only after a failed return or a lookup error |
| Session.NeverAlreadyProcessed | main.js:749-755 | the per-ad cap never rejects a candidate on a fresh page |
| Session.UncountedOutcomes | main.js:739-780 | a click counts exactly when the filter accepts and the click lands |
| Session.ClickedCountBounded | main.js:730-789 | no more clicks than visited candidates, and no more than five |
| Session.VisitCandidate | main.js:734-870 | one candidate's outcome, with the per-ad counter and click counter raised exactly when the outcome counts |
| Session.SearchController.constructor | main.js:476-482 | no province and no coordinate yet |
| Session.SearchController.ProcessAdsSequentially | main.js:728-874 | the visited outcomes are the walk over the capped list, and the counters are its click count and per-ad map |
| Session.SearchController.SearchOnPage | main.js:502-528 | a step before the walk that throws gives a page error; the candidates are the four heuristic lists merged without duplicates, and none gives no ads; otherwise the result is the sequencer's walk with its click count, or a page error when the walk ended in a throwing lookup |
| Session.LookupThrowIsPageError | main.js:760-782 | with sponsored results, the attempt is a page error exactly when a candidate's lookup throws before the walk stopped, and a completed walk holds no lookup error |
| Session.SearchController.RunAttempt | main.js:495-537 | the attempt is numbered, records its result and the coordinate the draw selects for the picker mode at the province's current cursor, and moves only that province's cursor |
| Session.SearchController.AttemptLoop | main.js:491-538 | exactly nine attempts, each holding the coordinate its draw selects at the cursor after the earlier attempts, and the result of its page; in sequential mode the province's cursor ends nine steps on, otherwise the cursor map is unchanged; other provinces' cursors unchanged |
| Session.SearchController.RunProvinceCycle | main.js:485-545 | the cycle picks its province, makes nine attempts there, each at the coordinate its draw selects, and reports it exhausted; in sequential mode that province's cursor ends nine steps on, otherwise the cursor map is unchanged |
| Fleet.ColorFor | multi.js:343 | every worker gets a palette colour |
| Fleet.PaletteDistinct | multi.js:34-45 | the ten palette colours are distinct |
| Fleet.ColorsRepeatEveryTen | multi.js:343 | two workers share a colour exactly when their ids agree modulo ten |
| Fleet.WorkersAreOrderedRecords | multi.js:342-355 | every worker record has its own directory and colour, and ids ascend |
| Fleet.WorkerKeptIffProvisioned | multi.js:342-355 | a worker id is in the list exactly when it is between 1 and the copy count and its directory was provisioned |
| Fleet.BuildWorkers | multi.js:339-355 | the loop builds the provisioned workers 1..copies in ascending order |
| Fleet.BuildWorkerArgs | multi.js:162-191 | the vector is the script path and base options followed by each option present and each switch set |
| Fleet.OptionsRoundTrip | multi.js:173-191 | the optional tokens read back as the worker's effective options |
| Fleet.WorkerArgvRoundTrip | multi.js:165-191 | the whole vector reads back as the script path and the effective options |
| Fleet.TimerDelay | multi.js:366 | the wait between launches is `delay` when Node accepts it (1 to 2147483647 ms), and 1 ms otherwise |
| Fleet.LaunchWorker | multi.js:160-201 | a launch runs the worker's vector in its own directory |
| Fleet.LaunchWorkers | multi.js:361-372 | one launch per worker in order, the k-th after a timer pause of the delay, starting at the sum of the earlier pauses and lags |
| Fleet.StartsAfterMultiples | multi.js:361-372 | launch k starts at least k pauses after the first, exactly then without lag, and start times strictly increase for a positive pause |
| Fleet.LaunchStartsFollowDelay | multi.js:361-368 | with an accepted `delay`, launch k starts at least `k * delay` ms after the first, and exactly then when nothing else takes time |
| Fleet.NonBlank | multi.js:206-210 | exactly the non-blank lines are kept; a single line is kept exactly when it is not blank |
| Fleet.NonBlankAppend | multi.js:206-210 | lines are relayed in order, repeats included |
| Fleet.ChunkLines | multi.js:204-211 | each relayed line is a non-blank line of the trimmed chunk, and every such line is relayed |
| Fleet.ChunkOfLines | multi.js:204-211 | a chunk made of lines, with no white space around it, is relayed as its non-blank lines in order |
| Fleet.StderrLines | multi.js:214-221 | standard error relays the same lines as standard output, each wrapped in the red and reset codes |
| Fleet.ChunkLinesLoseOnlyBlanks | multi.js:205-210 | with no blank lines, the relayed lines rejoin to the trimmed chunk |
| Fleet.NonBlankKeepsAll | multi.js:206-210 | filtering lines that are all non-blank keeps them all |
| Fleet.BlankChunkIsSilent | multi.js:204-211 | a blank chunk relays nothing |
| Fleet.DetailInjective | multi.js:398 | different exit codes (or none) give different detail text |
| Fleet.StatusTextInjective | multi.js:398 | different exit codes give different status text |
| Fleet.Summarize | multi.js:389-404 | a failed spawn fails the whole run; otherwise one status line per worker, in order |
| Fleet.SummaryReportsSuccess | multi.js:397-400 | a completed run reports each worker's status line |

## Left out

- The browser itself is not modelled. This covers:
  - page set-up, request interception and fingerprint options;
  - navigation, typing, the mouse and scrolling;
  - the four DOM heuristics of `_collectSponsoredLinks`, whose results are inputs;
  - the `'Sin titulo'` title fallbacks;
  - `smartWait` and all timers except the launch stagger.
  The effect of each step is an input (`BrowserStep`, `PageRun`).
- The captcha handling is not modelled. It waits on standard input.
- The recovery after a failed click (main.js:858-867) is not modelled: switching to a sibling tab or going back. The walk simply moves on to the next candidate.
- Only one cycle of the endless loop in `run()` is modelled. Left out with it:
  - the waits between provinces;
  - the outer `catch` and its back-off.
- Geo.LoadCountryGeo: reading the file and `JSON.parse` are left out.
  - The parsed record is an input, and a read or parse failure is `None`.
  - The file path, built from the upper-cased country code, is not modelled.
- Geo.Normalize: the accent-stripping of `removerAcentos` is not modelled. It is a parameter `fold`.
- Text.Lower: lower-casing covers ASCII and Latin-1. Other Unicode case mappings are not modelled.
- Strings are sequences of characters, not UTF-16 code units.
- `getHostname` and `URL` parsing are not modelled. The URL and domain lists are matched against the lower-cased link, as the filter does.
- Floating point is not modelled: weights, centres, radii and random draws are exact reals.
  - CoordinatePicking.PickWeighted: the target `Math.random() * total` is the exact real `u * total`. Rounding is not modelled.
- CoordinatePicking.Jittered: the trigonometry of `jitterAround` is not modelled. The offset comes from the draw.
- Logging is not modelled. This covers the logger and its colouring in main.js, `TEXTS`, the attempt log and the `maxAttempts` warning. Of multi.js's text, only the worker palette, the red stderr relay and the status summary are modelled; its banner and log lines are not.
- `multi.js` argument parsing with `yargs`, the banner and `cleanTmpDir` are not modelled.
- Fleet.ParseWorkerArgv: this is an independent reader of the argument vector. It is not the worker's own `yargs` parser.
- Copying the worker directories is not modelled. Whether each one was provisioned is the input `provisioned`.
- `path.join` normalisation is not modelled: the worker directory is the plain `tmpDir + "/" + worker_<id>`.
- `spawn`, its environment (`WORKER_ID`) and its event wiring are not modelled. Each child's end is an input `WorkerEnd`.
- The `SIGINT` handler is not modelled.
- Fleet.Summarize: the timing of `Promise.all` is not modelled. When several spawns fail, the model does not say which error message is shown.
- Fleet.BuildWorkers and Fleet.TimerDelay: `copies` and `delay` are integers. Fractional and `NaN` values from the command line are not modelled.
