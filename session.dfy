/**
 * One run of the emulator wrapper: the working directory is reset and the
 * Lua script written, the command line is built, the emulator is launched and
 * watched until the script's DONE marker appears, the process exits or the
 * timeout passes; then the process tree is killed, the output files are
 * collected and the run is classified.
 *
 * The operating system is outside the model: the working directory is a map
 * from file name to contents, what the emulator does while it runs is a
 * sequence of observations (one per poll), the outcome of each kill step and
 * of parsing `output.json` are given, and every effect on the outside world
 * is an entry in an action log.
 */
module Session {
  import opened Wrappers
  import opened Text

  /** The values `json.loads` returns; `JNull` is also Python's `None`. */
  datatype Json =
    | JNull
    | JBool(b: bool)
    | JInt(i: int)
    | JFloat(f: real)
    | JStr(s: string)
    | JArr(items: seq<Json>)
    | JObj(fields: seq<(string, Json)>)

  /** Python truthiness of a JSON value. */
  predicate Truthy(j: Json) {
    match j
    case JNull => false
    case JBool(b) => b
    case JInt(i) => i != 0
    case JFloat(f) => f != 0.0
    case JStr(s) => s != []
    case JArr(items) => items != []
    case JObj(fields) => fields != []
  }

  /** `EmulatorResult`: `output` is never filled in by a run. */
  datatype EmulatorResult = EmulatorResult(
    success: bool,
    screenshot: Option<seq<Byte>>,
    output: Option<string>,
    error: Option<string>,
    data: Json)

  function Failure(message: string): EmulatorResult {
    EmulatorResult(false, None, None, Some(message), JNull)
  }

  /** The files of the per-emulator temporary directory. */
  type Workspace = map<string, seq<Byte>>

  const DoneFile := "DONE"
  const ScreenshotFile := "screenshot.png"
  const OutputFile := "output.json"
  const ScriptFile := "script.lua"

  /** Seconds slept after the marker is seen and between polls, and after SIGTERM. */
  const PollInterval: real := 0.1
  const TermGrace: real := 0.2

  datatype Signal = SIGTERM | SIGKILL

  /** What the wrapper does to the outside world, in order. */
  datatype Action =
    | Removed(name: string)
    | Wrote(name: string)
    | Launched(command: seq<string>)
    | Slept(seconds: real)
    | SignalGroup(signal: Signal)
    | KillDirect

  // ---------------------------------------------------------------------------
  // Paths and command line
  // ---------------------------------------------------------------------------

  /** `if savestate_path:` — a missing or empty path is not given. */
  predicate Given(p: Option<string>) {
    p.Some? && p.value != ""
  }

  /** `str(Path(p).resolve())` relative to the working directory cwd, without normalisation. */
  function Resolve(cwd: string, p: string): string {
    if p == "" then cwd
    else if p[0] == '/' then p
    else cwd + "/" + p
  }

  function ScriptPath(tempDir: string): string {
    tempDir + "/" + ScriptFile
  }

  /** The emulator's command line. */
  function Command(mgbaPath: string, useXvfb: bool, rom: string, save: Option<string>, script: string): seq<string> {
    (if useXvfb then ["xvfb-run", "-a"] else [])
      + [mgbaPath, rom]
      + (if Given(save) then ["-t", save.value] else [])
      + ["--script", script, "-l", "0"]
  }

  // ---------------------------------------------------------------------------
  // Workspace reset
  // ---------------------------------------------------------------------------

  /** The outputs of the previous run that are removed before a launch. */
  const Previous: seq<string> := [ScreenshotFile, OutputFile]

  /** The working directory after removing each of the names that exists, in order. */
  function Unlink(ws: Workspace, names: seq<string>): Workspace {
    if names == [] then ws else Unlink(ws, names[..|names| - 1]) - {names[|names| - 1]}
  }

  /** The removals that `Unlink` performs, in order. */
  function Unlinks(ws: Workspace, names: seq<string>): seq<Action> {
    if names == [] then []
    else
      var init := names[..|names| - 1];
      Unlinks(ws, init) + (if names[|names| - 1] in Unlink(ws, init) then [Removed(names[|names| - 1])] else [])
  }

  function Reset(ws: Workspace, script: seq<Byte>): Workspace {
    Unlink(ws - {DoneFile}, Previous)[ScriptFile := script]
  }

  function ResetActions(ws: Workspace): seq<Action> {
    (if DoneFile in ws then [Removed(DoneFile)] else []) + Unlinks(ws - {DoneFile}, Previous) + [Wrote(ScriptFile)]
  }

  // ---------------------------------------------------------------------------
  // Watching the process
  // ---------------------------------------------------------------------------

  /**
   * What the wrapper observes at one poll: the files the emulator wrote since
   * the previous poll, the seconds elapsed since launch, and whether the
   * process has exited.
   */
  datatype Tick = Tick(writes: Workspace, elapsed: real, exited: bool)

  datatype StopReason = MarkerSeen | ProcessExited | TimedOut

  /** The clock reaches the timeout by the last observation. */
  predicate Ends(ticks: seq<Tick>, timeout: int) {
    ticks != [] && ticks[|ticks| - 1].elapsed >= timeout as real
  }

  datatype Watched = Watched(workspace: Workspace, reason: StopReason, at: nat)

  /** The poll loop from observation k on, with the working directory as it was before it. */
  function WatchFrom(ws: Workspace, ticks: seq<Tick>, timeout: int, k: nat): (w: Watched)
    requires Ends(ticks, timeout) && k < |ticks|
    ensures k <= w.at < |ticks|
    decreases |ticks| - k
  {
    var now := ws + ticks[k].writes;
    if ticks[k].elapsed >= timeout as real then Watched(now, TimedOut, k)
    else if DoneFile in now then Watched(now, MarkerSeen, k)
    else if ticks[k].exited then Watched(now, ProcessExited, k)
    else WatchFrom(now, ticks, timeout, k + 1)
  }

  /** `n` sleeps of the poll interval. */
  function Pauses(n: nat): (r: seq<Action>)
    ensures |r| == n
  {
    if n == 0 then [] else Pauses(n - 1) + [Slept(PollInterval)]
  }

  /** The sleeps of a watch that started at observation 0. */
  function WatchActions(w: Watched): seq<Action> {
    Pauses(w.at + if w.reason == MarkerSeen then 1 else 0)
  }

  /** The working directory after observations k .. j-1. */
  function Seen(ws: Workspace, ticks: seq<Tick>, k: nat, j: nat): Workspace
    requires k <= j <= |ticks|
    decreases j - k
  {
    if j == k then ws else Seen(ws, ticks, k, j - 1) + ticks[j - 1].writes
  }

  // ---------------------------------------------------------------------------
  // Killing the process tree
  // ---------------------------------------------------------------------------

  /**
   * The outcome of one kill step: delivered, one of the two errors the
   * wrapper swallows, or any other error, which escapes.
   */
  datatype KillOutcome = Delivered | NoSuchProcess | NotPermitted | Failed(message: string)

  datatype KillOutcomes = KillOutcomes(term: KillOutcome, kill: KillOutcome, direct: KillOutcome)

  /** The attempted steps: SIGTERM to the group (and a grace period if it got through), SIGKILL to the group, a direct kill. */
  function KillLog(o: KillOutcomes): seq<Action> {
    [SignalGroup(SIGTERM)] + (if o.term == Delivered then [Slept(TermGrace)] else [])
      + if o.term.Failed? then []
        else [SignalGroup(SIGKILL)] + if o.kill.Failed? then [] else [KillDirect]
  }

  /** The error that escapes the kill routine, if any: the first step that failed otherwise than swallowed. */
  function KillEscape(o: KillOutcomes): Option<string> {
    if o.term.Failed? then Some(o.term.message)
    else if o.kill.Failed? then Some(o.kill.message)
    else if o.direct.Failed? then Some(o.direct.message)
    else None
  }

  // ---------------------------------------------------------------------------
  // Collecting and classifying
  // ---------------------------------------------------------------------------

  /** `json.loads(path.read_text())`: a value, a `JSONDecodeError`, or a decoding error of the text. */
  datatype Parse = Parsed(value: Json) | Malformed | Undecodable(message: string)

  datatype Collected = Collected(screenshot: Option<seq<Byte>>, data: Json, marker: bool)

  /** Reads the outputs; a malformed `output.json` counts as absent, an undecodable one is an error. */
  function Collect(ws: Workspace, parse: seq<Byte> -> Parse): Result<Collected, string> {
    var shot := if ScreenshotFile in ws then Some(ws[ScreenshotFile]) else None;
    if OutputFile !in ws then Ok(Collected(shot, JNull, DoneFile in ws))
    else match parse(ws[OutputFile])
      case Parsed(j) => Ok(Collected(shot, j, DoneFile in ws))
      case Malformed => Ok(Collected(shot, JNull, DoneFile in ws))
      case Undecodable(m) => Err(m)
  }

  function TimeoutMessage(timeout: int): string {
    "Emulator timed out after " + FormatDec(timeout) + "s without producing output"
  }

  /** `if screenshot or output_data or done_file.exists()`. */
  predicate Produced(c: Collected) {
    (c.screenshot.Some? && c.screenshot.value != []) || Truthy(c.data) || c.marker
  }

  function Classify(c: Collected, timeout: int): EmulatorResult {
    if Produced(c) then EmulatorResult(true, c.screenshot, None, None, c.data)
    else Failure(TimeoutMessage(timeout))
  }

  // ---------------------------------------------------------------------------
  // A whole run
  // ---------------------------------------------------------------------------

  /**
   * Everything the outside world decides about a run: the current directory
   * paths are resolved against, whether starting the process fails, the poll
   * observations, the files written between the last poll and the kill, the
   * kill step outcomes and the JSON parser.
   */
  datatype Environment = Environment(
    cwd: string,
    launchError: Option<string>,
    ticks: seq<Tick>,
    lateWrites: Workspace,
    kill: KillOutcomes,
    parse: seq<Byte> -> Parse)

  predicate Admissible(env: Environment, timeout: int) {
    env.launchError.Some? || Ends(env.ticks, timeout)
  }

  datatype Outcome = Outcome(result: EmulatorResult, workspace: Workspace, actions: seq<Action>)

  /** Everything after a successful launch: watch, late writes, kill, collect, classify. */
  function Supervised(cleared: Workspace, timeout: int, env: Environment): Outcome
    requires Ends(env.ticks, timeout)
  {
    var w := WatchFrom(cleared, env.ticks, timeout, 0);
    var last := w.workspace + env.lateWrites;
    var acts := WatchActions(w) + KillLog(env.kill);
    if KillEscape(env.kill).Some? then Outcome(Failure(KillEscape(env.kill).value), last, acts)
    else match Collect(last, env.parse)
      case Err(m) => Outcome(Failure(m), last, acts)
      case Ok(c) => Outcome(Classify(c, timeout), last, acts)
  }

  function RunSpec(mgbaPath: string, useXvfb: bool, tempDir: string, ws: Workspace,
                   romPath: string, script: seq<Byte>, savestatePath: Option<string>,
                   timeout: int, env: Environment): Outcome
    requires Admissible(env, timeout)
  {
    var rom := Resolve(env.cwd, romPath);
    var save := if Given(savestatePath) then Some(Resolve(env.cwd, savestatePath.value)) else savestatePath;
    var cleared := Reset(ws, script);
    var prepared := ResetActions(ws);
    match env.launchError
    case Some(m) => Outcome(Failure(m), cleared, prepared)
    case None =>
      var s := Supervised(cleared, timeout, env);
      Outcome(s.result, s.workspace,
        prepared + [Launched(Command(mgbaPath, useXvfb, rom, save, ScriptPath(tempDir)))] + s.actions)
  }

  // ---------------------------------------------------------------------------
  // The wrapper
  // ---------------------------------------------------------------------------

  class MGBAEmulator {
    const mgbaPath: string
    const useXvfb: bool
    /** The directory `tempfile.mkdtemp` created; it is the process's working directory. */
    const tempDir: string
    /** Set by the constructor and never read by a run. */
    const doneMarker: string
    var workspace: Workspace
    var log: seq<Action>

    constructor(mgbaPath: string, useXvfb: bool, tempDir: string)
      ensures this.mgbaPath == mgbaPath && this.useXvfb == useXvfb && this.tempDir == tempDir
      ensures doneMarker == "MGBA_SCRIPT_DONE"
      ensures workspace == map[] && log == []
    {
      this.mgbaPath := mgbaPath;
      this.useXvfb := useXvfb;
      this.tempDir := tempDir;
      doneMarker := "MGBA_SCRIPT_DONE";
      workspace := map[];
      log := [];
    }

    /** Removes the previous run's marker and outputs, then writes the script. */
    method ResetWorkspace(script: seq<Byte>)
      modifies this
      ensures workspace == Reset(old(workspace), script)
      ensures log == old(log) + ResetActions(old(workspace))
    {
      if DoneFile in workspace {
        workspace := workspace - {DoneFile};
        log := log + [Removed(DoneFile)];
      }
      assert workspace == old(workspace) - {DoneFile};
      UnlinkEach(Previous);
      workspace := workspace[ScriptFile := script];
      log := log + [Wrote(ScriptFile)];
    }

    /** `for f in names: if f.exists(): f.unlink()`. */
    method UnlinkEach(names: seq<string>)
      modifies this
      ensures workspace == Unlink(old(workspace), names)
      ensures log == old(log) + Unlinks(old(workspace), names)
    {
      for k := 0 to |names|
        invariant workspace == Unlink(old(workspace), names[..k])
        invariant log == old(log) + Unlinks(old(workspace), names[..k])
      {
        var f := names[k];
        assert names[..k + 1][..k] == names[..k];
        if f in workspace {
          workspace := workspace - {f};
          log := log + [Removed(f)];
        }
      }
      assert names[..|names|] == names;
    }

    /** Builds the command line by repeated extension. */
    method BuildCommand(rom: string, save: Option<string>) returns (cmd: seq<string>)
      ensures cmd == Command(mgbaPath, useXvfb, rom, save, ScriptPath(tempDir))
    {
      cmd := [];
      if useXvfb {
        cmd := cmd + ["xvfb-run", "-a"];
      }
      cmd := cmd + [mgbaPath, rom];
      if save.Some? && save.value != "" {
        cmd := cmd + ["-t", save.value];
      }
      cmd := cmd + ["--script", tempDir + "/" + ScriptFile, "-l", "0"];
    }

    /** The poll loop. */
    method Watch(ticks: seq<Tick>, timeout: int) returns (reason: StopReason, at: nat)
      requires Ends(ticks, timeout)
      modifies this
      ensures var w := WatchFrom(old(workspace), ticks, timeout, 0);
        workspace == w.workspace && reason == w.reason && at == w.at
        && log == old(log) + WatchActions(w)
    {
      var k := 0;
      while true
        invariant k < |ticks|
        invariant WatchFrom(old(workspace), ticks, timeout, 0) == WatchFrom(workspace, ticks, timeout, k)
        invariant log == old(log) + Pauses(k)
        decreases |ticks| - k
      {
        workspace := workspace + ticks[k].writes;
        if ticks[k].elapsed >= timeout as real {
          reason, at := TimedOut, k;
          break;
        }
        if DoneFile in workspace {
          log := log + [Slept(PollInterval)];
          reason, at := MarkerSeen, k;
          break;
        }
        if ticks[k].exited {
          reason, at := ProcessExited, k;
          break;
        }
        log := log + [Slept(PollInterval)];
        k := k + 1;
      }
    }

    /** `_kill_process_tree`: three steps, each tolerating a vanished process or a refused signal. */
    method KillProcessTree(o: KillOutcomes) returns (escaped: Option<string>)
      modifies this
      ensures workspace == old(workspace)
      ensures log == old(log) + KillLog(o) && escaped == KillEscape(o)
    {
      log := log + [SignalGroup(SIGTERM)];
      match o.term {
        case Failed(m) => return Some(m);
        case Delivered => log := log + [Slept(TermGrace)];
        case _ =>
      }
      log := log + [SignalGroup(SIGKILL)];
      if o.kill.Failed? {
        return Some(o.kill.message);
      }
      log := log + [KillDirect];
      if o.direct.Failed? {
        return Some(o.direct.message);
      }
      return None;
    }

    /** `_run_with_lua`. */
    method RunWithLua(romPath: string, luaScript: seq<Byte>, savestatePath: Option<string>, timeout: int, env: Environment)
      returns (result: EmulatorResult)
      requires Admissible(env, timeout)
      modifies this
      ensures var o := RunSpec(mgbaPath, useXvfb, tempDir, old(workspace), romPath, luaScript, savestatePath, timeout, env);
        result == o.result && workspace == o.workspace && log == old(log) + o.actions
    {
      var rom := Resolve(env.cwd, romPath);
      var save := savestatePath;
      if save.Some? && save.value != "" {
        save := Some(Resolve(env.cwd, save.value));
      }
      ResetWorkspace(luaScript);
      var cmd := BuildCommand(rom, save);
      if env.launchError.Some? {
        return Failure(env.launchError.value);
      }
      log := log + [Launched(cmd)];
      result := Supervise(timeout, env);
    }

    /** From the launch on: watch, kill, collect and classify. */
    method Supervise(timeout: int, env: Environment) returns (result: EmulatorResult)
      requires Ends(env.ticks, timeout)
      modifies this
      ensures var s := Supervised(old(workspace), timeout, env);
        result == s.result && workspace == s.workspace && log == old(log) + s.actions
    {
      ghost var w := WatchFrom(workspace, env.ticks, timeout, 0);
      var reason, at := Watch(env.ticks, timeout);
      workspace := workspace + env.lateWrites;
      var escaped := KillProcessTree(env.kill);
      assert log == (old(log) + WatchActions(w)) + KillLog(env.kill);
      AppendAssoc(old(log), WatchActions(w), KillLog(env.kill));
      if escaped.Some? {
        return Failure(escaped.value);
      }
      var collected := Collect(workspace, env.parse);
      if collected.Err? {
        return Failure(collected.error);
      }
      result := Classify(collected.value, timeout);
    }
  }

  // ---------------------------------------------------------------------------
  // Properties
  // ---------------------------------------------------------------------------

  /**
   * After the reset no marker, screenshot or JSON output of an earlier run is
   * left, the script holds the new text, and every other file is untouched.
   */
  lemma ResetClears(ws: Workspace, script: seq<Byte>)
    ensures var r := Reset(ws, script);
      && DoneFile !in r && ScreenshotFile !in r && OutputFile !in r
      && ScriptFile in r && r[ScriptFile] == script
      && (forall n :: n in ws && n != DoneFile && n != ScreenshotFile && n != OutputFile && n != ScriptFile ==>
            n in r && r[n] == ws[n])
      && forall n :: n in r ==> n in ws || n == ScriptFile
  {
    assert Reset(ws, script) == (ws - {DoneFile, ScreenshotFile, OutputFile})[ScriptFile := script] by {
      PreviousUnlinked(ws - {DoneFile});
    }
  }

  lemma PreviousUnlinked(ws: Workspace)
    ensures Unlink(ws, Previous) == ws - {ScreenshotFile, OutputFile}
    ensures Unlinks(ws, Previous)
      == (if ScreenshotFile in ws then [Removed(ScreenshotFile)] else [])
       + (if OutputFile in ws then [Removed(OutputFile)] else [])
  {
    assert ScreenshotFile[0] != OutputFile[0];
    assert Previous[..1] == [ScreenshotFile] && Previous[..1][..0] == [] && Previous[..1][0] == ScreenshotFile;
    assert Unlink(ws, Previous[..1]) == ws - {ScreenshotFile};
    assert Unlinks(ws, Previous[..1]) == (if ScreenshotFile in ws then [Removed(ScreenshotFile)] else []);
    assert OutputFile in ws - {ScreenshotFile} <==> OutputFile in ws;
  }

  /** A file is removed exactly when it is one of the three outputs and exists; the script is written last. */
  lemma ResetActionsExact(ws: Workspace)
    ensures var a := ResetActions(ws);
      && a[|a| - 1] == Wrote(ScriptFile)
      && forall n :: Removed(n) in a <==> n in ws && (n == DoneFile || n == ScreenshotFile || n == OutputFile)
  {
    PreviousUnlinked(ws - {DoneFile});
  }

  /**
   * The command is `[xvfb-run -a] <mgba> <rom> [-t <savestate>] --script <script.lua> -l 0`:
   * the wrapper prefix exactly when requested, the savestate option exactly
   * when a non-empty path is given.
   */
  lemma CommandLayout(mgbaPath: string, useXvfb: bool, rom: string, save: Option<string>, script: string)
    ensures var cmd, p := Command(mgbaPath, useXvfb, rom, save, script), if useXvfb then 2 else 0;
      && |cmd| == p + 6 + (if Given(save) then 2 else 0)
      && (useXvfb ==> cmd[..2] == ["xvfb-run", "-a"])
      && cmd[p] == mgbaPath && cmd[p + 1] == rom
      && (Given(save) ==> cmd[p + 2] == "-t" && cmd[p + 3] == save.value)
      && cmd[|cmd| - 4..] == ["--script", script, "-l", "0"]
  {
  }

  /** Resolved paths are absolute when the current directory is. */
  lemma ResolveAbsolute(cwd: string, p: string)
    requires cwd != [] && cwd[0] == '/'
    ensures var r := Resolve(cwd, p); r != [] && r[0] == '/'
    ensures p != [] && p[0] == '/' ==> Resolve(cwd, p) == p
  {
  }

  /**
   * The poll loop stops at the first observation where the time is up, the
   * marker exists or the process has exited, checked in that order; before
   * it, time was left, no marker existed and the process was running.
   */
  lemma {:induction false} WatchStopsFirst(ws: Workspace, ticks: seq<Tick>, timeout: int, k: nat)
    requires Ends(ticks, timeout) && k < |ticks|
    ensures var w := WatchFrom(ws, ticks, timeout, k);
      && w.workspace == Seen(ws, ticks, k, w.at + 1)
      && (forall i :: k <= i < w.at ==>
            ticks[i].elapsed < timeout as real && DoneFile !in Seen(ws, ticks, k, i + 1) && !ticks[i].exited)
      && (w.reason == TimedOut <==> ticks[w.at].elapsed >= timeout as real)
      && (w.reason == MarkerSeen <==> ticks[w.at].elapsed < timeout as real && DoneFile in w.workspace)
      && (w.reason == ProcessExited <==>
            ticks[w.at].elapsed < timeout as real && DoneFile !in w.workspace && ticks[w.at].exited)
    decreases |ticks| - k
  {
    var now := ws + ticks[k].writes;
    assert Seen(ws, ticks, k, k + 1) == now;
    if ticks[k].elapsed < timeout as real && DoneFile !in now && !ticks[k].exited {
      WatchStopsFirst(now, ticks, timeout, k + 1);
      SeenShift(ws, ticks, k, WatchFrom(ws, ticks, timeout, k).at + 1);
      forall j | k + 2 <= j <= WatchFrom(ws, ticks, timeout, k).at
        ensures Seen(ws, ticks, k, j) == Seen(now, ticks, k + 1, j)
      {
        SeenShift(ws, ticks, k, j);
      }
    }
  }

  /** Applying observation k first and then k+1 .. j-1 is applying k .. j-1. */
  lemma {:induction false} SeenShift(ws: Workspace, ticks: seq<Tick>, k: nat, j: nat)
    requires k < j <= |ticks|
    ensures Seen(ws, ticks, k, j) == Seen(ws + ticks[k].writes, ticks, k + 1, j)
    decreases j - k
  {
    if j > k + 1 {
      SeenShift(ws, ticks, k, j - 1);
    }
  }

  /** The loop never goes on once the time is up: only the first observation past the timeout can stop it for that reason. */
  lemma WatchWithinTimeout(ws: Workspace, ticks: seq<Tick>, timeout: int)
    requires Ends(ticks, timeout)
    ensures var w := WatchFrom(ws, ticks, timeout, 0);
      forall i :: 0 <= i < w.at ==> ticks[i].elapsed < timeout as real
  {
    WatchStopsFirst(ws, ticks, timeout, 0);
  }

  /** A file exists after the watch only if it existed before or the emulator wrote it at one of the observations seen. */
  lemma {:induction false} SeenOrigin(ws: Workspace, ticks: seq<Tick>, k: nat, j: nat, name: string)
    requires k <= j <= |ticks| && name in Seen(ws, ticks, k, j)
    ensures name in ws || exists i :: k <= i < j && name in ticks[i].writes
    decreases j - k
  {
    if j > k && name !in ticks[j - 1].writes {
      SeenOrigin(ws, ticks, k, j - 1, name);
    }
  }

  /**
   * Without an escaping error the three kill steps are all attempted, in
   * order, and the grace sleep happens exactly when SIGTERM got through;
   * a swallowed error never escapes.
   */
  lemma KillOrder(o: KillOutcomes)
    requires !o.term.Failed? && !o.kill.Failed? && !o.direct.Failed?
    ensures KillEscape(o) == None
    ensures KillLog(o) == [SignalGroup(SIGTERM)] + (if o.term == Delivered then [Slept(TermGrace)] else [])
      + [SignalGroup(SIGKILL), KillDirect]
  {
  }

  /** An error other than the two swallowed ones ends the routine: nothing after the failing step is attempted. */
  lemma KillStopsOnFailure(o: KillOutcomes)
    ensures o.term.Failed? ==> KillLog(o) == [SignalGroup(SIGTERM)] && KillEscape(o) == Some(o.term.message)
    ensures !o.term.Failed? && o.kill.Failed? ==> KillLog(o)[|KillLog(o)| - 1] == SignalGroup(SIGKILL)
    ensures KillEscape(o).None? <==> !o.term.Failed? && !o.kill.Failed? && !o.direct.Failed?
  {
  }

  /** A malformed `output.json` is as good as none. */
  lemma MalformedIsAbsent(ws: Workspace, parse: seq<Byte> -> Parse)
    requires OutputFile in ws && parse(ws[OutputFile]) == Malformed
    ensures Collect(ws, parse) == Collect(ws - {OutputFile}, parse)
  {
  }

  /**
   * A run succeeds exactly when the screenshot is non-empty, the JSON output
   * is truthy or the marker exists; a failure names the timeout and carries
   * no screenshot and no data.
   */
  lemma ClassifySuccess(c: Collected, timeout: int)
    ensures var r := Classify(c, timeout);
      && (r.success <==> (c.screenshot.Some? && c.screenshot.value != []) || Truthy(c.data) || c.marker)
      && (r.success ==> r.error == None && r.screenshot == c.screenshot && r.data == c.data)
      && (!r.success ==> r.error == Some(TimeoutMessage(timeout)) && r.screenshot == None && r.data == JNull)
      && r.output == None
  {
  }

  /** A marker alone is a success, even with no screenshot and no data. */
  lemma MarkerAloneSucceeds(timeout: int)
    ensures Classify(Collected(None, JNull, true), timeout).success
    ensures Classify(Collected(Some([]), JObj([]), false), timeout) == Failure(TimeoutMessage(timeout))
  {
  }

  lemma AppendAssoc<T>(a: seq<T>, b: seq<T>, c: seq<T>)
    ensures (a + b) + c == a + (b + c)
  {
  }

  function CountTerm(acts: seq<Action>): nat {
    if acts == [] then 0 else CountTerm(acts[..|acts| - 1]) + if acts[|acts| - 1] == SignalGroup(SIGTERM) then 1 else 0
  }

  lemma {:induction false} CountTermConcat(a: seq<Action>, b: seq<Action>)
    ensures CountTerm(a + b) == CountTerm(a) + CountTerm(b)
    decreases |b|
  {
    if b == [] {
      assert a + b == a;
    } else {
      assert (a + b)[..|a + b| - 1] == a + b[..|b| - 1];
      CountTermConcat(a, b[..|b| - 1]);
    }
  }

  lemma {:induction false} NoTermIn(acts: seq<Action>)
    requires forall i :: 0 <= i < |acts| ==> acts[i] != SignalGroup(SIGTERM)
    ensures CountTerm(acts) == 0
    decreases |acts|
  {
    if acts != [] {
      NoTermIn(acts[..|acts| - 1]);
    }
  }

  lemma {:induction false} PausesAreSleeps(n: nat)
    ensures forall i :: 0 <= i < n ==> Pauses(n)[i] == Slept(PollInterval)
    decreases n
  {
    if n > 0 {
      PausesAreSleeps(n - 1);
    }
  }

  /**
   * Once the process is launched the kill routine runs exactly once, after
   * the launch and the watch, whatever stopped the watch; if the launch
   * fails it never runs and the error is the launch error.
   */
  lemma KillOnce(mgbaPath: string, useXvfb: bool, tempDir: string, ws: Workspace,
                 romPath: string, script: seq<Byte>, savestatePath: Option<string>,
                 timeout: int, env: Environment)
    requires Admissible(env, timeout)
    ensures var o := RunSpec(mgbaPath, useXvfb, tempDir, ws, romPath, script, savestatePath, timeout, env);
      && CountTerm(o.actions) == (if env.launchError.None? then 1 else 0)
      && (env.launchError.Some? ==> o.result == Failure(env.launchError.value))
  {
    ResetHasNoTerm(ws);
    if env.launchError.None? {
      var o := RunSpec(mgbaPath, useXvfb, tempDir, ws, romPath, script, savestatePath, timeout, env);
      var s := Supervised(Reset(ws, script), timeout, env);
      var launched: seq<Action> := [o.actions[|ResetActions(ws)|]];
      assert o.actions == ResetActions(ws) + launched + s.actions;
      NoTermIn(launched);
      SuperviseTermOnce(Reset(ws, script), timeout, env);
      CountTermConcat(ResetActions(ws), launched);
      CountTermConcat(ResetActions(ws) + launched, s.actions);
    }
  }

  lemma ResetHasNoTerm(ws: Workspace)
    ensures CountTerm(ResetActions(ws)) == 0
  {
    var u := Unlinks(ws - {DoneFile}, Previous);
    PreviousUnlinked(ws - {DoneFile});
    var d: seq<Action> := if DoneFile in ws then [Removed(DoneFile)] else [];
    NoTermIn(d + u + [Wrote(ScriptFile)]);
  }

  /** After the launch SIGTERM is sent exactly once, after the watch's sleeps. */
  lemma SuperviseTermOnce(cleared: Workspace, timeout: int, env: Environment)
    requires Ends(env.ticks, timeout)
    ensures CountTerm(Supervised(cleared, timeout, env).actions) == 1
  {
    var w := WatchFrom(cleared, env.ticks, timeout, 0);
    var sleeps := WatchActions(w);
    PausesAreSleeps(|sleeps|);
    NoTermIn(sleeps);
    var k := KillLog(env.kill);
    var rest := k[1..];
    assert k == [SignalGroup(SIGTERM)] + rest;
    NoTermIn(rest);
    assert CountTerm([SignalGroup(SIGTERM)]) == 1;
    CountTermConcat([SignalGroup(SIGTERM)], rest);
    CountTermConcat(sleeps, k);
  }

  /** The reset only removes and writes files. */
  lemma ResetActionsAreFileSteps(ws: Workspace)
    ensures forall i :: 0 <= i < |ResetActions(ws)| ==> ResetActions(ws)[i].Removed? || ResetActions(ws)[i].Wrote?
  {
    PreviousUnlinked(ws - {DoneFile});
  }

  /** The kill routine opens with SIGTERM to the group and neither sends it again nor sleeps a poll interval. */
  lemma KillLogShape(o: KillOutcomes)
    ensures |KillLog(o)| >= 1 && KillLog(o)[0] == SignalGroup(SIGTERM)
    ensures forall i :: 1 <= i < |KillLog(o)| ==>
      KillLog(o)[i] != SignalGroup(SIGTERM) && KillLog(o)[i] != Slept(PollInterval)
  {
  }

  /**
   * The order of the actions of a launched run: the reset, the launch, the
   * watch's sleeps of the poll interval and nothing else, then the kill
   * routine, whose opening SIGTERM is the only one of the run.
   */
  lemma KillAfterWatch(mgbaPath: string, useXvfb: bool, tempDir: string, ws: Workspace,
                       romPath: string, script: seq<Byte>, savestatePath: Option<string>,
                       timeout: int, env: Environment)
    requires Admissible(env, timeout) && env.launchError.None?
    ensures var a := RunSpec(mgbaPath, useXvfb, tempDir, ws, romPath, script, savestatePath, timeout, env).actions;
      var l := |ResetActions(ws)|;
      var t := l + 1 + |WatchActions(WatchFrom(Reset(ws, script), env.ticks, timeout, 0))|;
      && t < |a|
      && a[l].Launched?
      && a[t] == SignalGroup(SIGTERM)
      && (forall i :: 0 <= i < |a| && a[i] == SignalGroup(SIGTERM) ==> i == t)
      && (forall i :: 0 <= i < |a| ==> (a[i] == Slept(PollInterval) <==> l < i < t))
  {
    var a := RunSpec(mgbaPath, useXvfb, tempDir, ws, romPath, script, savestatePath, timeout, env).actions;
    var r := ResetActions(ws);
    var w := WatchFrom(Reset(ws, script), env.ticks, timeout, 0);
    var p := WatchActions(w);
    var k := KillLog(env.kill);
    var l := |r|;
    var t := l + 1 + |p|;
    assert a == r + [a[l]] + (p + k);
    ResetActionsAreFileSteps(ws);
    PausesAreSleeps(|p|);
    KillLogShape(env.kill);
    forall i | 0 <= i < |a|
      ensures a[i] == SignalGroup(SIGTERM) ==> i == t
      ensures a[i] == Slept(PollInterval) <==> l < i < t
    {
      if i < l {
        assert a[i] == r[i];
      } else if l < i < t {
        assert a[i] == p[i - l - 1];
      } else if i >= t {
        assert a[i] == k[i - t];
      }
    }
  }

  /**
   * How a run ends: it succeeds exactly when the launch works, no kill step
   * fails otherwise than swallowed, the outputs can be read and something was
   * produced; otherwise its error is the first of the launch error, the kill
   * error, the decoding error and the timeout message that applies.
   */
  lemma RunResult(mgbaPath: string, useXvfb: bool, tempDir: string, ws: Workspace,
                  romPath: string, script: seq<Byte>, savestatePath: Option<string>,
                  timeout: int, env: Environment)
    requires Admissible(env, timeout)
    ensures var o := RunSpec(mgbaPath, useXvfb, tempDir, ws, romPath, script, savestatePath, timeout, env);
      var c := Collect(o.workspace, env.parse);
      && (o.result.success <==>
            env.launchError.None? && KillEscape(env.kill).None? && c.Ok? && Produced(c.value))
      && (env.launchError.Some? ==> o.result == Failure(env.launchError.value))
      && (env.launchError.None? && KillEscape(env.kill).Some? ==>
            o.result == Failure(KillEscape(env.kill).value))
      && (env.launchError.None? && KillEscape(env.kill).None? && c.Err? ==>
            o.result == Failure(c.error))
      && (env.launchError.None? && KillEscape(env.kill).None? && c.Ok? && !Produced(c.value) ==>
            o.result == Failure(TimeoutMessage(timeout)))
      && (o.result.success ==>
            o.result.error == None && o.result.screenshot == c.value.screenshot && o.result.data == c.value.data)
  {
  }

  /**
   * No output of an earlier run survives into the classification: every
   * output file present at the end was written by the emulator during this
   * run, at an observation the watch saw or just before the kill.
   */
  lemma OutputsAreFresh(mgbaPath: string, useXvfb: bool, tempDir: string, ws: Workspace,
                        romPath: string, script: seq<Byte>, savestatePath: Option<string>,
                        timeout: int, env: Environment, name: string)
    requires Admissible(env, timeout) && env.launchError.None?
    requires name == DoneFile || name == ScreenshotFile || name == OutputFile
    requires name in RunSpec(mgbaPath, useXvfb, tempDir, ws, romPath, script, savestatePath, timeout, env).workspace
    ensures name in env.lateWrites
      || exists i :: 0 <= i <= WatchFrom(Reset(ws, script), env.ticks, timeout, 0).at && name in env.ticks[i].writes
  {
    var cleared := Reset(ws, script);
    var w := WatchFrom(cleared, env.ticks, timeout, 0);
    ResetClears(ws, script);
    if name !in env.lateWrites {
      WatchStopsFirst(cleared, env.ticks, timeout, 0);
      SeenOrigin(cleared, env.ticks, 0, w.at + 1, name);
    }
  }

  /** A successful run produced something during this run. */
  lemma SuccessNeedsOutput(mgbaPath: string, useXvfb: bool, tempDir: string, ws: Workspace,
                           romPath: string, script: seq<Byte>, savestatePath: Option<string>,
                           timeout: int, env: Environment)
    requires Admissible(env, timeout)
    requires RunSpec(mgbaPath, useXvfb, tempDir, ws, romPath, script, savestatePath, timeout, env).result.success
    ensures env.launchError.None? && KillEscape(env.kill).None?
    ensures var last := RunSpec(mgbaPath, useXvfb, tempDir, ws, romPath, script, savestatePath, timeout, env).workspace;
      DoneFile in last || ScreenshotFile in last || OutputFile in last
  {
  }

  // ---------------------------------------------------------------------------
  // How the tools report a run
  // ---------------------------------------------------------------------------

  /**
   * The display tools print their record only when the run succeeded and its
   * data is truthy; otherwise they print `f"Error: {result.error}"`.
   */
  function ToolError(r: EmulatorResult): Option<string> {
    if r.success && Truthy(r.data) then None
    else Some("Error: " + if r.error.Some? then r.error.value else "None")
  }

  /** A run that succeeded only through its marker or screenshot is reported as "Error: None". */
  lemma SuccessWithoutDataReportsNone(c: Collected, timeout: int)
    requires Produced(c) && !Truthy(c.data)
    ensures Classify(c, timeout).success
    ensures ToolError(Classify(c, timeout)) == Some("Error: None")
  {
    assert "Error: " + "None" == "Error: None";
  }

  /** A failed run is reported with its error text. */
  lemma FailureReported(r: EmulatorResult)
    requires !r.success && r.error.Some?
    ensures ToolError(r) == Some("Error: " + r.error.value)
  {
  }
}
