/** The fleet supervisor (multi.js): it provisions one working directory
    per copy, gives each worker a colour, launches the workers one after the
    other with a fixed pause between launches, relays their output line by
    line and prints one status line per worker once all have exited. The
    file system, the child processes and the clock are inputs. */
module Fleet {
  import opened Wrappers
  import opened Text

  // ---------------------------------------------------------------------
  // Colours
  // ---------------------------------------------------------------------

  /** `WORKER_COLORS`: cyan, yellow, magenta, green, blue, red, white, light
      cyan, light yellow, light magenta. */
  const Palette: seq<string> := [
    "\U{1B}[36m", "\U{1B}[33m", "\U{1B}[35m", "\U{1B}[32m", "\U{1B}[34m",
    "\U{1B}[31m", "\U{1B}[37m", "\U{1B}[96m", "\U{1B}[93m", "\U{1B}[95m"
  ]

  /** `CONFIG.colors.red` and `CONFIG.colors.reset`. */
  const Red: string := "\U{1B}[31m"
  const Reset: string := "\U{1B}[0m"

  /** The colour of worker `id` (numbered from 1): the palette, round robin. */
  function ColorFor(id: nat): (c: string)
    requires id >= 1
    ensures c in Palette
  {
    Palette[(id - 1) % |Palette|]
  }

  lemma PaletteDistinct()
    ensures forall a, b :: 0 <= a < b < |Palette| ==> Palette[a] != Palette[b]
  {
    forall a, b | 0 <= a < b < |Palette|
      ensures Palette[a] != Palette[b]
    {
      assert Palette[a][3] != Palette[b][3] || Palette[a][2] != Palette[b][2];
    }
  }

  /** Two workers share a colour exactly when their numbers are congruent
      modulo the palette size: ten consecutive workers all differ. */
  lemma ColorsRepeatEveryTen(i: nat, j: nat)
    requires i >= 1 && j >= 1
    ensures ColorFor(i) == ColorFor(j) <==> (i - 1) % 10 == (j - 1) % 10
  {
    PaletteDistinct();
  }

  // ---------------------------------------------------------------------
  // Worker records
  // ---------------------------------------------------------------------

  datatype Worker = Worker(id: nat, dir: string, color: string)

  /** `path.join(CONFIG.tmpDir, "worker_" + id)`. */
  function WorkerDir(tmpDir: string, id: nat): string {
    tmpDir + "/worker_" + NatToString(id)
  }

  /** The record of a provisioned worker. */
  predicate IsRecordOf(w: Worker, tmpDir: string, id: nat) {
    id >= 1 && w == Worker(id, WorkerDir(tmpDir, id), ColorFor(id))
  }

  /** The workers kept among copies 1 to `n`: copy `i` is kept when its
      directory could be provisioned, `provisioned(i)` saying whether
      `setupWorkerDir(i)` returned or threw. */
  function WorkersUpTo(tmpDir: string, provisioned: nat -> bool, n: nat): seq<Worker> {
    if n == 0 then []
    else
      var kept := if provisioned(n) then [Worker(n, WorkerDir(tmpDir, n), ColorFor(n))] else [];
      WorkersUpTo(tmpDir, provisioned, n - 1) + kept
  }

  /** Some worker of `ws` has id `i`. */
  predicate HasId(ws: seq<Worker>, i: nat) {
    exists k :: 0 <= k < |ws| && ws[k].id == i
  }

  /** Every worker of `ws` is the record of its own copy, among copies 1 to `n`. */
  predicate RecordsUpTo(ws: seq<Worker>, tmpDir: string, n: nat) {
    forall k :: 0 <= k < |ws| ==> IsRecordOf(ws[k], tmpDir, ws[k].id) && ws[k].id <= n
  }

  predicate IdsAscend(ws: seq<Worker>) {
    forall a, b :: 0 <= a < b < |ws| ==> ws[a].id < ws[b].id
  }

  /** Every kept worker is the record of its own copy, and ids ascend. */
  lemma {:induction false} WorkersAreOrderedRecords(tmpDir: string, provisioned: nat -> bool, n: nat)
    ensures RecordsUpTo(WorkersUpTo(tmpDir, provisioned, n), tmpDir, n)
    ensures IdsAscend(WorkersUpTo(tmpDir, provisioned, n))
  {
    if n > 0 {
      WorkersAreOrderedRecords(tmpDir, provisioned, n - 1);
      var prev := WorkersUpTo(tmpDir, provisioned, n - 1);
      var ws := WorkersUpTo(tmpDir, provisioned, n);
      if provisioned(n) {
        var w := Worker(n, WorkerDir(tmpDir, n), ColorFor(n));
        assert ws == prev + [w];
        forall k | 0 <= k < |ws|
          ensures IsRecordOf(ws[k], tmpDir, ws[k].id) && ws[k].id <= n
        {
          if k < |prev| {
            assert ws[k] == prev[k];
          }
        }
        forall a, b | 0 <= a < b < |ws|
          ensures ws[a].id < ws[b].id
        {
          assert ws[a] == prev[a];
          if b < |prev| {
            assert ws[b] == prev[b];
          }
        }
      } else {
        assert ws == prev;
      }
    }
  }

  /** A copy is kept exactly when it was provisioned: a failure drops that
      copy and no other. */
  lemma {:induction false} WorkerKeptIffProvisioned(tmpDir: string, provisioned: nat -> bool, n: nat)
    ensures forall i: nat :: HasId(WorkersUpTo(tmpDir, provisioned, n), i) <==> 1 <= i <= n && provisioned(i)
  {
    if n > 0 {
      WorkerKeptIffProvisioned(tmpDir, provisioned, n - 1);
      var prev := WorkersUpTo(tmpDir, provisioned, n - 1);
      var ws := WorkersUpTo(tmpDir, provisioned, n);
      forall i: nat
        ensures HasId(ws, i) <==> 1 <= i <= n && provisioned(i)
      {
        if provisioned(n) {
          assert ws == prev + [Worker(n, WorkerDir(tmpDir, n), ColorFor(n))];
          if HasId(ws, i) {
            var k :| 0 <= k < |ws| && ws[k].id == i;
            if k < |prev| {
              assert prev[k].id == i;
              assert HasId(prev, i);
            }
          }
          if 1 <= i <= n && provisioned(i) {
            if i == n {
              assert ws[|prev|].id == i;
            } else {
              assert HasId(prev, i);
              var k :| 0 <= k < |prev| && prev[k].id == i;
              assert ws[k].id == i;
            }
          }
        } else {
          assert ws == prev;
        }
      }
    }
  }

  /** The first loop of `main`: copies 1 to `copies`, each kept when its
      directory could be provisioned. */
  method BuildWorkers(copies: int, tmpDir: string, provisioned: nat -> bool) returns (workers: seq<Worker>)
    ensures workers == WorkersUpTo(tmpDir, provisioned, if copies < 1 then 0 else copies)
    ensures forall i: nat :: HasId(workers, i) <==> 1 <= i <= copies && provisioned(i)
    ensures forall a, b :: 0 <= a < b < |workers| ==> workers[a].id < workers[b].id
  {
    workers := [];
    var i := 1;
    while i <= copies
      invariant 1 <= i <= (if copies < 1 then 0 else copies) + 1
      invariant workers == WorkersUpTo(tmpDir, provisioned, i - 1)
      decreases copies - i
    {
      var color := ColorFor(i);
      if provisioned(i) {
        var workerDir := WorkerDir(tmpDir, i);
        workers := workers + [Worker(i, workerDir, color)];
      }
      i := i + 1;
    }
    WorkersAreOrderedRecords(tmpDir, provisioned, if copies < 1 then 0 else copies);
    WorkerKeptIffProvisioned(tmpDir, provisioned, if copies < 1 then 0 else copies);
  }

  // ---------------------------------------------------------------------
  // Argument vector of a worker
  // ---------------------------------------------------------------------

  /** The supervisor's options a worker inherits. Absent options are `None`. */
  datatype WorkerArgs = WorkerArgs(
    query: string, country: string, mode: string, coordMode: string,
    proxy: Option<string>, lang: Option<string>, province: Option<string>,
    headless: bool, keepOpen: bool)

  function OptionPair(flag: string, x: Option<string>): seq<string> {
    if TruthyString(x) then [flag, x.value] else []
  }

  function Switch(flag: string, on: bool): seq<string> {
    if on then [flag] else []
  }

  /** The optional part of the arguments, in the order they are pushed. */
  function OptionalArgs(args: WorkerArgs): seq<string> {
    OptionPair("-p", args.proxy) + OptionPair("-l", args.lang) + OptionPair("--province", args.province)
      + Switch("--headless", args.headless) + Switch("--keep_open", args.keepOpen)
  }

  /** The arguments `launchWorker` passes to `node`. */
  function WorkerArgv(mainPath: string, args: WorkerArgs): seq<string> {
    [mainPath, "-q", args.query, "-c", args.country, "--mode", args.mode, "--coordMode", args.coordMode]
      + OptionalArgs(args)
  }

  /** `if (x) workerArgs.push(flag, x)`. */
  method PushOption(argv: seq<string>, flag: string, x: Option<string>) returns (r: seq<string>)
    ensures r == argv + OptionPair(flag, x)
  {
    r := argv;
    if TruthyString(x) {
      r := r + [flag, x.value];
    }
  }

  /** `if (on) workerArgs.push(flag)`. */
  method PushSwitch(argv: seq<string>, flag: string, on: bool) returns (r: seq<string>)
    ensures r == argv + Switch(flag, on)
  {
    r := argv;
    if on {
      r := r + [flag];
    }
  }

  /** `workerArgs`, built by conditional pushes. */
  method BuildWorkerArgs(mainPath: string, args: WorkerArgs) returns (workerArgs: seq<string>)
    ensures workerArgs == WorkerArgv(mainPath, args)
  {
    var base := [mainPath, "-q", args.query, "-c", args.country, "--mode", args.mode, "--coordMode", args.coordMode];
    workerArgs := PushOption(base, "-p", args.proxy);
    workerArgs := PushOption(workerArgs, "-l", args.lang);
    workerArgs := PushOption(workerArgs, "--province", args.province);
    workerArgs := PushSwitch(workerArgs, "--headless", args.headless);
    workerArgs := PushSwitch(workerArgs, "--keep_open", args.keepOpen);
    var p, l, v, h, k := OptionPair("-p", args.proxy), OptionPair("-l", args.lang),
      OptionPair("--province", args.province), Switch("--headless", args.headless), Switch("--keep_open", args.keepOpen);
    AppendAssoc(base, p, l);
    AppendAssoc(base, p + l, v);
    AppendAssoc(base, p + l + v, h);
    AppendAssoc(base, p + l + v + h, k);
  }

  lemma AppendAssoc<T>(a: seq<T>, b: seq<T>, c: seq<T>)
    ensures (a + b) + c == a + (b + c)
  {
  }

  /** What the worker can read back: falsy string options are dropped. */
  function Effective(args: WorkerArgs): WorkerArgs {
    args.(proxy := if TruthyString(args.proxy) then args.proxy else None,
          lang := if TruthyString(args.lang) then args.lang else None,
          province := if TruthyString(args.province) then args.province else None)
  }

  /** Reading the optional flags back, in any order. */
  function ParseOptions(tokens: seq<string>, a: WorkerArgs): Option<WorkerArgs>
    decreases |tokens|
  {
    if tokens == [] then Some(a)
    else if tokens[0] == "--headless" then ParseOptions(tokens[1..], a.(headless := true))
    else if tokens[0] == "--keep_open" then ParseOptions(tokens[1..], a.(keepOpen := true))
    else if |tokens| < 2 then None
    else if tokens[0] == "-p" then ParseOptions(tokens[2..], a.(proxy := Some(tokens[1])))
    else if tokens[0] == "-l" then ParseOptions(tokens[2..], a.(lang := Some(tokens[1])))
    else if tokens[0] == "--province" then ParseOptions(tokens[2..], a.(province := Some(tokens[1])))
    else None
  }

  /** An independent reader of the worker's command line: the script path,
      the four mandatory options in their fixed places, then the optional ones. */
  function ParseWorkerArgv(argv: seq<string>): Option<(string, WorkerArgs)> {
    if |argv| >= 9 && argv[1] == "-q" && argv[3] == "-c" && argv[5] == "--mode" && argv[7] == "--coordMode" then
      match ParseOptions(argv[9..], WorkerArgs(argv[2], argv[4], argv[6], argv[8], None, None, None, false, false))
      case None => None
      case Some(a) => Some((argv[0], a))
    else None
  }

  lemma ParsePair(flag: string, x: Option<string>, rest: seq<string>, a: WorkerArgs)
    requires flag == "-p" || flag == "-l" || flag == "--province"
    ensures ParseOptions(OptionPair(flag, x) + rest, a) ==
            if !TruthyString(x) then ParseOptions(rest, a)
            else if flag == "-p" then ParseOptions(rest, a.(proxy := x))
            else if flag == "-l" then ParseOptions(rest, a.(lang := x))
            else ParseOptions(rest, a.(province := x))
  {
    if TruthyString(x) {
      assert (OptionPair(flag, x) + rest)[2..] == rest;
    } else {
      assert OptionPair(flag, x) + rest == rest;
    }
  }

  lemma ParseSwitch(flag: string, on: bool, rest: seq<string>, a: WorkerArgs)
    requires flag == "--headless" || flag == "--keep_open"
    ensures ParseOptions(Switch(flag, on) + rest, a) ==
            if !on then ParseOptions(rest, a)
            else if flag == "--headless" then ParseOptions(rest, a.(headless := true))
            else ParseOptions(rest, a.(keepOpen := true))
  {
    if on {
      assert (Switch(flag, on) + rest)[1..] == rest;
    } else {
      assert Switch(flag, on) + rest == rest;
    }
  }

  /** The two switches are read back into the flags they stand for. */
  lemma SwitchesReadBack(headless: bool, keepOpen: bool, a: WorkerArgs)
    ensures ParseOptions(Switch("--headless", headless) + Switch("--keep_open", keepOpen), a)
            == Some(a.(headless := a.headless || headless, keepOpen := a.keepOpen || keepOpen))
  {
    var r := Switch("--keep_open", keepOpen);
    ParseSwitch("--headless", headless, r, a);
    var a1 := if headless then a.(headless := true) else a;
    ParseSwitch("--keep_open", keepOpen, [], a1);
    assert r + [] == r;
  }

  /** The three string options are read back when they were passed on. */
  lemma PairsReadBack(proxy: Option<string>, lang: Option<string>, province: Option<string>,
                      rest: seq<string>, a: WorkerArgs)
    ensures ParseOptions(OptionPair("-p", proxy) + (OptionPair("-l", lang) + (OptionPair("--province", province) + rest)), a)
            == ParseOptions(rest, a.(proxy := if TruthyString(proxy) then proxy else a.proxy,
                                     lang := if TruthyString(lang) then lang else a.lang,
                                     province := if TruthyString(province) then province else a.province))
  {
    var r2 := OptionPair("--province", province) + rest;
    var r1 := OptionPair("-l", lang) + r2;
    ParsePair("-p", proxy, r1, a);
    var a1 := a.(proxy := if TruthyString(proxy) then proxy else a.proxy);
    ParsePair("-l", lang, r2, a1);
    var a2 := a1.(lang := if TruthyString(lang) then lang else a.lang);
    ParsePair("--province", province, rest, a2);
  }

  /** The optional flags are read back into the options they came from. */
  lemma OptionsRoundTrip(args: WorkerArgs)
    ensures ParseOptions(OptionalArgs(args),
              WorkerArgs(args.query, args.country, args.mode, args.coordMode, None, None, None, false, false))
            == Some(Effective(args))
  {
    var p, l, v := OptionPair("-p", args.proxy), OptionPair("-l", args.lang), OptionPair("--province", args.province);
    var switches := Switch("--headless", args.headless) + Switch("--keep_open", args.keepOpen);
    AppendAssoc(p + l + v, Switch("--headless", args.headless), Switch("--keep_open", args.keepOpen));
    AppendAssoc(p + l, v, switches);
    AppendAssoc(p, l, v + switches);
    assert OptionalArgs(args) == p + (l + (v + switches));
    var a0 := WorkerArgs(args.query, args.country, args.mode, args.coordMode, None, None, None, false, false);
    PairsReadBack(args.proxy, args.lang, args.province, switches, a0);
    var a3 := a0.(proxy := if TruthyString(args.proxy) then args.proxy else None,
                  lang := if TruthyString(args.lang) then args.lang else None,
                  province := if TruthyString(args.province) then args.province else None);
    SwitchesReadBack(args.headless, args.keepOpen, a3);
  }

  /** The worker reads back every option the supervisor meant to pass on. */
  lemma WorkerArgvRoundTrip(mainPath: string, args: WorkerArgs)
    ensures ParseWorkerArgv(WorkerArgv(mainPath, args)) == Some((mainPath, Effective(args)))
  {
    var argv := WorkerArgv(mainPath, args);
    assert argv[9..] == OptionalArgs(args);
    OptionsRoundTrip(args);
  }

  // ---------------------------------------------------------------------
  // Staggered launch
  // ---------------------------------------------------------------------

  /** Node's `setTimeout` runs a delay below 1 ms or above 2147483647 ms
      after 1 ms. */
  function TimerDelay(delay: int): (d: nat)
    ensures d >= 1
    ensures 1 <= delay <= 2147483647 ==> d == delay
    ensures !(1 <= delay <= 2147483647) ==> d == 1
  {
    if 1 <= delay <= 2147483647 then delay else 1
  }

  /** One launch: which worker, how long the supervisor's timer waited just
      before it, when it started (ms after the first launch), in which
      directory and with which arguments. */
  datatype Launch = Launch(workerId: nat, waited: nat, start: nat, cwd: string, argv: seq<string>)

  /** `l` runs worker `w`'s own copy of the session, in its directory and
      with the supervisor's options. */
  predicate LaunchOf(l: Launch, w: Worker, args: WorkerArgs) {
    l.workerId == w.id && l.cwd == w.dir && l.argv == WorkerArgv(w.dir + "/main.js", args)
  }

  /** When the `k`-th launch starts, with a timer pause of `d` before every
      launch but the first. `lag(k)` is the time the `k`-th iteration spends
      beyond its timer: the previous synchronous `spawn`, the log line, and
      the timer firing late. */
  function StartOf(k: nat, d: nat, lag: nat -> nat): nat {
    if k == 0 then 0 else StartOf(k - 1, d, lag) + d + lag(k)
  }

  /** The `k`-th launch of the stagger: worker `w`, after its pause. */
  predicate StaggeredLaunch(l: Launch, w: Worker, args: WorkerArgs, k: nat, d: nat, lag: nat -> nat) {
    LaunchOf(l, w, args) && l.waited == (if k == 0 then 0 else d) && l.start == StartOf(k, d, lag)
  }

  /** `launchWorker`: the worker's own `main.js`, run in its directory with
      the arguments built from the supervisor's options. */
  method LaunchWorker(worker: Worker, args: WorkerArgs, waited: nat, start: nat) returns (launch: Launch)
    ensures LaunchOf(launch, worker, args) && launch.waited == waited && launch.start == start
  {
    var workerArgs := BuildWorkerArgs(worker.dir + "/main.js", args);
    launch := Launch(worker.id, waited, start, worker.dir, workerArgs);
  }

  /** The second loop of `main`: the workers in order, each after a pause of
      `delay` except the first. The clock is an input: `lag` is the time
      each iteration takes besides its timer. */
  method LaunchWorkers(workers: seq<Worker>, args: WorkerArgs, delay: int, lag: nat -> nat)
    returns (launches: seq<Launch>)
    ensures |launches| == |workers|
    ensures forall k :: 0 <= k < |launches| ==>
              StaggeredLaunch(launches[k], workers[k], args, k, TimerDelay(delay), lag)
  {
    launches := [];
    var now := 0;
    for i := 0 to |workers|
      invariant |launches| == i
      invariant forall k :: 0 <= k < i ==> StaggeredLaunch(launches[k], workers[k], args, k, TimerDelay(delay), lag)
      invariant now == StartOf(if i == 0 then 0 else i - 1, TimerDelay(delay), lag)
    {
      var worker := workers[i];
      var waited := 0;
      if i > 0 {
        waited := TimerDelay(delay);
        now := now + waited + lag(i);
      }
      var launch := LaunchWorker(worker, args, waited, now);
      launches := launches + [launch];
    }
  }

  /** With a delay Node accepts, launch `k` starts at least `k * delay` ms
      after the first, and exactly then when nothing else takes time. */
  lemma LaunchStartsFollowDelay(k: nat, delay: int, lag: nat -> nat)
    requires 1 <= delay <= 2147483647
    ensures StartOf(k, TimerDelay(delay), lag) >= k * delay
    ensures (forall j: nat :: 1 <= j <= k ==> lag(j) == 0) ==> StartOf(k, TimerDelay(delay), lag) == k * delay
  {
    StartsAfterMultiples(k, TimerDelay(delay), lag);
  }

  /** Launch `k` starts no earlier than `k` pauses after the first, exactly
      then without lag, and two workers never start together when the pause
      is positive. */
  lemma {:induction false} StartsAfterMultiples(k: nat, d: nat, lag: nat -> nat)
    ensures StartOf(k, d, lag) >= k * d
    ensures (forall j: nat :: 1 <= j <= k ==> lag(j) == 0) ==> StartOf(k, d, lag) == k * d
    ensures d > 0 ==> forall j: nat :: j < k ==> StartOf(j, d, lag) < StartOf(k, d, lag)
  {
    if k > 0 {
      StartsAfterMultiples(k - 1, d, lag);
      assert k * d == (k - 1) * d + d;
    }
  }


  // ---------------------------------------------------------------------
  // Output relay
  // ---------------------------------------------------------------------

  /** The lines of `lines` that are not blank, in order. */
  function NonBlank(lines: seq<string>): (r: seq<string>)
    ensures |r| <= |lines|
    ensures forall l :: l in r <==> l in lines && !Blank(l)
    decreases |lines|
  {
    if lines == [] then []
    else
      var rest := NonBlank(lines[1..]);
      assert forall l :: l in lines <==> l == lines[0] || l in lines[1..];
      if Blank(lines[0]) then rest else [lines[0]] + rest
  }

  /** `forEach` with its `if` keeps the lines in order, repeats included:
      with the one-line case fixed by `NonBlank`'s contract, this
      determines the result. */
  lemma {:induction false} NonBlankAppend(a: seq<string>, b: seq<string>)
    ensures NonBlank(a + b) == NonBlank(a) + NonBlank(b)
    decreases |a|
  {
    if a == [] {
      assert a + b == b;
    } else {
      assert (a + b)[0] == a[0] && (a + b)[1..] == a[1..] + b;
      NonBlankAppend(a[1..], b);
    }
  }

  /** The lines an output chunk is relayed as: the chunk trimmed, split at
      line feeds, blank lines dropped. */
  function ChunkLines(chunk: string): (lines: seq<string>)
    ensures forall l :: l in lines ==> !Blank(l) && '\n' !in l
    ensures forall l :: l in lines <==> l in Split(Trim(chunk), '\n') && !Blank(l)
  {
    NonBlank(Split(Trim(chunk), '\n'))
  }

  /** A chunk made of lines, with no white space around it, is relayed as
      its non-blank lines in their order, repeats included. */
  lemma ChunkOfLines(lines: seq<string>)
    requires |lines| >= 1 && forall k :: 0 <= k < |lines| ==> '\n' !in lines[k]
    requires Unpadded(Join(lines, '\n'))
    ensures ChunkLines(Join(lines, '\n')) == NonBlank(lines)
  {
    TrimUnpadded(Join(lines, '\n'));
    SplitJoin(lines, '\n');
  }

  /** The relay of standard error: the same lines as for standard output,
      each wrapped in the red and reset codes. */
  function StderrLines(chunk: string): (shown: seq<string>)
    ensures |shown| == |ChunkLines(chunk)|
    ensures forall k :: 0 <= k < |shown| ==>
              |shown[k]| == |Red| + |ChunkLines(chunk)[k]| + |Reset|
              && shown[k][..|Red|] == Red
              && shown[k][|Red|..|shown[k]| - |Reset|] == ChunkLines(chunk)[k]
              && shown[k][|shown[k]| - |Reset|..] == Reset
  {
    var lines := ChunkLines(chunk);
    seq(|lines|, k requires 0 <= k < |lines| => StderrLine(lines[k]))
  }

  /** A standard-error line is shown in red. */
  function StderrLine(line: string): string {
    Red + line + Reset
  }

  /** Nothing but blank lines is dropped: when no line of the trimmed chunk
      is blank, joining the relayed lines gives the trimmed chunk back. */
  lemma {:induction false} ChunkLinesLoseOnlyBlanks(chunk: string)
    requires forall l :: l in Split(Trim(chunk), '\n') ==> !Blank(l)
    ensures Join(ChunkLines(chunk), '\n') == Trim(chunk)
  {
    NonBlankKeepsAll(Split(Trim(chunk), '\n'));
    JoinSplit(Trim(chunk), '\n');
  }

  lemma {:induction false} NonBlankKeepsAll(lines: seq<string>)
    requires forall l :: l in lines ==> !Blank(l)
    ensures NonBlank(lines) == lines
    decreases |lines|
  {
    if lines != [] {
      assert forall l :: l in lines[1..] ==> l in lines;
      NonBlankKeepsAll(lines[1..]);
    }
  }

  /** A blank chunk relays nothing. */
  lemma BlankChunkIsSilent(chunk: string)
    requires Blank(chunk)
    ensures ChunkLines(chunk) == []
  {
    assert Trim(chunk) == [];
    assert Split([], '\n') == [[]];
  }

  // ---------------------------------------------------------------------
  // Summary
  // ---------------------------------------------------------------------

  /** How a worker process ended: it exited (with no code when a signal
      killed it), or it could not be spawned at all. */
  datatype WorkerEnd = Exited(code: Option<int>) | SpawnFailed

  /** The status shown for an exit code: success only for code 0; `null`
      for a process without a code. */
  function StatusText(code: Option<int>): string {
    if code == Some(0) then "\U{2705} OK"
    else "\U{274C} Error (" + Detail(code) + ")"
  }

  /** The text between the parentheses of a failure status. */
  function Detail(code: Option<int>): string {
    if code.Some? then IntToString(code.value) else "null"
  }

  lemma DetailInjective(a: Option<int>, b: Option<int>)
    ensures Detail(a) == Detail(b) <==> a == b
  {
    if a.Some? && b.Some? {
      IntToStringInjective(a.value, b.value);
    } else if a.Some? && b.None? {
      NumberTextNotNull(a);
      assert Detail(b)[0] == 'n';
    } else if a.None? && b.Some? {
      NumberTextNotNull(b);
      assert Detail(a)[0] == 'n';
    }
  }

  /** Different exit codes always read differently. */
  lemma StatusTextInjective(a: Option<int>, b: Option<int>)
    ensures StatusText(a) == StatusText(b) <==> a == b
  {
    if a == Some(0) || b == Some(0) {
      if a != b {
        assert StatusText(a)[0] != StatusText(b)[0];
      }
    } else {
      DetailInjective(a, b);
      ConcatCancel("\U{274C} Error (", Detail(a), Detail(b), ")");
      assert StatusText(a) == "\U{274C} Error (" + Detail(a) + ")";
      assert StatusText(b) == "\U{274C} Error (" + Detail(b) + ")";
    }
  }

  /** A number's text starts with a digit or a minus sign, never with `n`. */
  lemma NumberTextNotNull(code: Option<int>)
    ensures code.Some? ==> IntToString(code.value)[0] != 'n'
  {
    if code.Some? {
      var i := code.value;
      if i >= 0 {
        assert IsDigit(NatToString(i)[0]);
      }
    }
  }

  /** The result of `Promise.all` over the workers: every worker's status
      line, or the failure of the whole run when any worker failed to spawn. */
  datatype Summary = Completed(lines: seq<string>) | ExecutionFailed

  function StatusLine(w: Worker, code: Option<int>): string {
    "Worker " + NatToString(w.id) + ": " + StatusText(code)
  }

  function Summarize(workers: seq<Worker>, ends: seq<WorkerEnd>): (s: Summary)
    requires |ends| == |workers|
    ensures s.ExecutionFailed? <==> exists k :: 0 <= k < |ends| && ends[k].SpawnFailed?
    ensures s.Completed? ==> |s.lines| == |workers|
    ensures s.Completed? ==> forall k :: 0 <= k < |workers| ==> s.lines[k] == StatusLine(workers[k], ends[k].code)
  {
    if exists k :: 0 <= k < |ends| && ends[k].SpawnFailed? then ExecutionFailed
    else Completed(seq(|workers|, k requires 0 <= k < |workers| => StatusLine(workers[k], ends[k].code)))
  }

  /** A worker's line reports success exactly when it exited with code 0. */
  lemma SummaryReportsSuccess(workers: seq<Worker>, ends: seq<WorkerEnd>, k: nat)
    requires |ends| == |workers| && k < |workers| && Summarize(workers, ends).Completed?
    ensures Summarize(workers, ends).lines[k] == "Worker " + NatToString(workers[k].id) + ": \U{2705} OK"
            <==> ends[k] == Exited(Some(0))
  {
    var pre := "Worker " + NatToString(workers[k].id) + ": ";
    StatusTextInjective(ends[k].code, Some(0));
    ConcatCancel(pre, StatusText(ends[k].code), StatusText(Some(0)), "");
    assert Summarize(workers, ends).lines[k] == pre + StatusText(ends[k].code) + "";
    assert "Worker " + NatToString(workers[k].id) + ": \U{2705} OK" == pre + StatusText(Some(0)) + "";
  }
}
