/**
 * The per-bot supervisor `BotProcess` (bot_manager.py) as a sequential state
 * machine. Threads, subprocesses and psutil are replaced by their observable
 * outcomes: each launch attempt of the run loop is an `Attempt` value (its output
 * lines, its exit code, an optional stop that lands while it runs, or a launch
 * failure), a stop or an auto-stop is an event between two steps of the loop, and
 * the clock is a parameter.
 */
module BotManager {
  import opened Wrappers
  import opened Text
  import opened Deque
  import opened Db
  import Plans
  import Security
  import Utils

  /** `deque(maxlen=5000)` holding the log entries. */
  const MaxLogEntries: nat := 5000

  /** Default `max_lines` of `get_logs`. */
  const DefaultLogRead: int := 500

  /**
   * One stored line: the formatted timestamp, the line as logged and the error
   * flag. `_add_log` stores the HTML-escaped line; escaping is a function of the
   * line alone, so the entry keeps the line and `Text` is the stored text.
   */
  datatype LogEntry = LogEntry(timestamp: string, line: string, isError: bool) {
    function Text(): string {
      Utils.EscapeLogOutput(line)
    }
  }

  /**
   * A clock reading: the `strftime('%Y-%m-%d %H:%M:%S')` text the log uses, the
   * `datetime.now().isoformat()` text `bot_status` reports, and the `time.time()` value.
   */
  datatype Clock = Clock(stamp: string, iso: string, epoch: real)

  /** `self.process`: no handle, a handle whose process is alive (`poll() is None`), or one that has exited. */
  datatype Process = NoProcess | Alive | Exited

  /**
   * The fields of one `BotProcess`. `persisted` is the `bots.status` column that
   * the supervisor writes (`_update_db_status` and the write in `start`);
   * `autoStop` is the pending auto-stop timer with its delay in seconds;
   * `startTime` is the `datetime.now()` of the latest launch, kept as its
   * `isoformat()` text.
   */
  datatype Bot = Bot(
    userId: int,
    botId: int,
    username: string,
    botName: string,
    process: Process,
    status: Status,
    persisted: Status,
    logs: seq<LogEntry>,
    errorTimes: seq<real>,
    startTime: Option<string>,
    stopRequested: bool,
    restartCount: nat,
    maxRestarts: nat,
    crashDetected: bool,
    errorReason: Option<string>,
    cpuUsage: real,
    ramUsageMb: nat,
    autoStop: Option<nat>)

  /** Both deques stay within their `maxlen`. */
  predicate Valid(b: Bot) {
    |b.logs| <= MaxLogEntries && |b.errorTimes| <= Security.ErrorWindowSize
  }

  /** Everything but the run-time state: who owns the bot and its restart budget. */
  predicate SameIdentity(a: Bot, b: Bot) {
    a.userId == b.userId && a.botId == b.botId && a.username == b.username
    && a.botName == b.botName && a.maxRestarts == b.maxRestarts
  }

  /**
   * `BotProcess.__init__`: stopped, empty logs, no process, and the restart budget
   * of the owner's plan at construction time. `row` is the bot's current row status.
   */
  function NewBot(userId: int, botId: int, username: string, botName: string,
                  limits: Plans.Limits, row: Status): (b: Bot)
    ensures Valid(b) && b.status == STOPPED && b.process == NoProcess
    ensures b.logs == [] && b.errorTimes == [] && b.restartCount == 0 && b.autoStop == None
    ensures b.maxRestarts == limits.maxRestarts && b.persisted == row
    ensures b.userId == userId && b.botId == botId
  {
    Bot(userId, botId, username, botName, NoProcess, STOPPED, row, [], [], None,
        false, 0, limits.maxRestarts, false, None, 0.0, 0, None)
  }

  /**
   * The lines the supervisor itself writes to a bot's log. Output lines of the
   * child process are logged as they come.
   */
  datatype Notice =
    | NoRequirements
    | RequirementsInstalled
    | RequirementsFailed(stderr: string)
    | ScriptNotFound
    | Starting(attempt: nat)
    | ExitedWith(code: int)
    | Restarting(count: nat, limit: nat)
    | MaxRestartsExceeded
    | Failure(error: string)
    | StoppedByUser
    | RuntimeLimitReached
    | BotStopped
    | CpuOverLimit(cpuText: string, limit: nat)
    | RamOverLimit(megabytes: nat, limit: nat)
    | CommandEcho(command: string)

  function Line(n: Notice): string {
    match n
    case NoRequirements => "No requirements.txt found, skipping"
    case RequirementsInstalled => "requirements.txt installed successfully"
    case RequirementsFailed(stderr) => "Failed to install requirements: " + stderr
    case ScriptNotFound => "bot.py not found"
    case Starting(attempt) => "Starting bot (attempt " + NatToString(attempt) + ")..."
    case ExitedWith(code) => "Bot exited with code " + IntToString(code)
    case Restarting(count, limit) => "Restarting (" + NatToString(count) + "/" + NatToString(limit) + ")..."
    case MaxRestartsExceeded => "Max restarts exceeded. Bot stopped."
    case Failure(error) => "Error: " + error
    case StoppedByUser => "Bot stopped by user"
    case RuntimeLimitReached => "24-hour runtime limit reached. Auto-stopping."
    case BotStopped => "Bot stopped"
    case CpuOverLimit(cpuText, limit) =>
      "CPU usage " + cpuText + "% exceeds limit (" + NatToString(limit) + "%). Stopping bot."
    case RamOverLimit(megabytes, limit) =>
      "RAM usage " + NatToString(megabytes) + "MB exceeds limit (" + NatToString(limit) + "MB). Stopping bot."
    case CommandEcho(command) => "> " + command
  }

  /** The entry `_add_log(line, is_error)` stores at time `at`. */
  function Entry(line: string, isError: bool, at: Clock): LogEntry {
    LogEntry(at.stamp, line, isError)
  }

  function LastEntry(b: Bot): Option<LogEntry> {
    if b.logs == [] then None else Some(b.logs[|b.logs| - 1])
  }

  /** The log deque after one append: the buffer keeps its FIFO order and its bound. */
  function AppendEntry(logs: seq<LogEntry>, e: LogEntry): (r: seq<LogEntry>)
    ensures |r| >= 1 && r[|r| - 1] == e
    ensures |logs| < MaxLogEntries ==> r == logs + [e]
    ensures |logs| == MaxLogEntries ==> r == logs[1..] + [e]
    ensures |logs| <= MaxLogEntries ==> |r| <= MaxLogEntries
  {
    var r := BoundedAppend(logs, e, MaxLogEntries);
    if |logs| <= MaxLogEntries then BoundedAppendFifo(logs, e, MaxLogEntries); r else r
  }

  /** The error-timestamp deque after one append. */
  function AppendErrorTime(times: seq<real>, t: real): (r: seq<real>)
    ensures |r| >= 1 && r[|r| - 1] == t
    ensures |times| <= Security.ErrorWindowSize ==> |r| <= Security.ErrorWindowSize
  {
    BoundedAppend(times, t, Security.ErrorWindowSize)
  }

  /**
   * `_add_log` without its spam reaction: the escaped line goes into the log
   * deque, and an error line also records its time in the 200-entry window.
   */
  function AddLog(b: Bot, line: string, isError: bool, at: Clock): (r: Bot)
    ensures LastEntry(r) == Some(Entry(line, isError, at))
    ensures |b.logs| < MaxLogEntries ==> r.logs == b.logs + [Entry(line, isError, at)]
    ensures |b.logs| == MaxLogEntries ==> r.logs == b.logs[1..] + [Entry(line, isError, at)]
    ensures isError ==> |r.errorTimes| >= 1 && r.errorTimes[|r.errorTimes| - 1] == at.epoch
    ensures !isError ==> r.errorTimes == b.errorTimes
    ensures r == b.(logs := r.logs, errorTimes := r.errorTimes)
    ensures Valid(b) ==> Valid(r)
  {
    b.(logs := AppendEntry(b.logs, Entry(line, isError, at)),
       errorTimes := if isError then AppendErrorTime(b.errorTimes, at.epoch) else b.errorTimes)
  }

  /**
   * `get_logs(max_lines)`: the last `max_lines` entries in order, without touching
   * the buffer; a count of 0 returns every entry.
   */
  function GetLogs(b: Bot, maxLines: int): (r: seq<LogEntry>)
    ensures |r| <= |b.logs| && r == b.logs[|b.logs| - |r|..]
    ensures maxLines >= 1 ==> |r| == if maxLines >= |b.logs| then |b.logs| else maxLines
    ensures maxLines == 0 ==> r == b.logs
  {
    SliceFrom(b.logs, -maxLines)
  }

  /** `get_logs()` with its default: the newest 500 entries, or all of them when there are fewer. */
  lemma GetLogsDefault(b: Bot)
    ensures var r := GetLogs(b, DefaultLogRead);
            && |r| == (if |b.logs| <= DefaultLogRead then |b.logs| else DefaultLogRead)
            && r == b.logs[|b.logs| - |r|..]
  {
  }

  /** One `_add_log` is one deque append. */
  lemma AddLogAppends(b: Bot, line: string, isError: bool, at: Clock)
    ensures AddLog(b, line, isError, at).logs == AppendAll(b.logs, [Entry(line, isError, at)], MaxLogEntries)
  {
    assert [Entry(line, isError, at)][1..] == [];
  }

  // ---------------------------------------------------------------------------
  // stop
  // ---------------------------------------------------------------------------

  /**
   * `stop`: when a live process exists, raise the stop flag and drop the handle
   * (the process group is terminated, then killed); in every case cancel the
   * auto-stop timer, set and persist STOPPED and log the stop.
   */
  function Stop(b: Bot, at: Clock): (r: Bot)
    ensures r.status == STOPPED && r.persisted == STOPPED && r.autoStop == None
    ensures b.process == Alive ==> r.stopRequested && r.process == NoProcess
    ensures b.process != Alive ==> r.stopRequested == b.stopRequested && r.process == b.process
    ensures LastEntry(r) == Some(Entry(Line(StoppedByUser), false, at))
    ensures r.errorTimes == b.errorTimes
    ensures r == b.(process := r.process, stopRequested := r.stopRequested, status := STOPPED,
                    persisted := STOPPED, autoStop := None, logs := r.logs)
    ensures Valid(b) ==> Valid(r)
  {
    var b1 := if b.process == Alive then b.(stopRequested := true, process := NoProcess) else b;
    AddLog(b1.(status := STOPPED, persisted := STOPPED, autoStop := None), Line(StoppedByUser), false, at)
  }

  /**
   * A second stop changes nothing but the log, which gets one more
   * Line(StoppedByUser) line: the status is idempotent, the log is not.
   */
  lemma StopTwice(b: Bot, first: Clock, second: Clock)
    ensures var once := Stop(b, first);
            var twice := Stop(once, second);
            twice.(logs := once.logs) == once
            && LastEntry(twice) == Some(Entry(Line(StoppedByUser), false, second))
            && (|once.logs| < MaxLogEntries ==> |twice.logs| == |once.logs| + 1)
  {
  }

  /** `stop` appends its one line to the log. */
  lemma StopAppends(b: Bot, at: Clock)
    ensures Stop(b, at).logs == AppendAll(b.logs, [Entry(Line(StoppedByUser), false, at)], MaxLogEntries)
  {
    var b1 := if b.process == Alive then b.(stopRequested := true, process := NoProcess) else b;
    AddLogAppends(b1.(status := STOPPED, persisted := STOPPED, autoStop := None), Line(StoppedByUser), false, at);
  }

  /** An error line followed by `stop` appends two lines to the log. */
  lemma LogThenStopAppends(b: Bot, line: string, at: Clock)
    ensures var added := [Entry(line, true, at), Entry(Line(StoppedByUser), false, at)];
            && Stop(AddLog(b, line, true, at), at).logs == AppendAll(b.logs, added, MaxLogEntries)
            && (|b.logs| + 2 <= MaxLogEntries ==> Stop(AddLog(b, line, true, at), at).logs == b.logs + added)
  {
    AddLogAppends(b, line, true, at);
    StopAppends(AddLog(b, line, true, at), at);
    AppendAllPair(b.logs, Entry(line, true, at), Entry(Line(StoppedByUser), false, at), MaxLogEntries);
  }

  /** The two lines of an error followed by `stop`. */
  function StopLines(line: string, at: Clock): seq<LogEntry> {
    [Entry(line, true, at), Entry(Line(StoppedByUser), false, at)]
  }

  /**
   * Log an error line, then `stop`: what `_auto_stop` does, and what the resource
   * monitor does for each limit it finds exceeded. Apart from the log and the
   * error window, the bot ends as `stop` alone leaves it.
   */
  function LogAndStop(b: Bot, line: string, at: Clock): (r: Bot)
    ensures r == Stop(b, at).(logs := r.logs, errorTimes := r.errorTimes)
    ensures r.logs == AppendAll(b.logs, StopLines(line, at), MaxLogEntries)
    ensures |b.logs| + 2 <= MaxLogEntries ==> r.logs == b.logs + StopLines(line, at)
    ensures |r.errorTimes| >= 1 && r.errorTimes[|r.errorTimes| - 1] == at.epoch
    ensures Valid(b) ==> Valid(r)
  {
    LogThenStopAppends(b, line, at);
    Stop(AddLog(b, line, true, at), at)
  }

  /**
   * `_auto_stop`: the timer logs the runtime limit as an error, then stops the bot
   * exactly as `stop` does; with room in the buffer the two lines are simply added.
   */
  function AutoStop(b: Bot, at: Clock): (r: Bot)
    ensures r.status == STOPPED && r.persisted == STOPPED && r.autoStop == None
    ensures b.process == Alive ==> r.stopRequested && r.process == NoProcess
    ensures r == Stop(b, at).(logs := r.logs, errorTimes := r.errorTimes)
    ensures |b.logs| + 2 <= MaxLogEntries ==>
              r.logs == b.logs + [Entry(Line(RuntimeLimitReached), true, at), Entry(Line(StoppedByUser), false, at)]
    ensures |r.errorTimes| >= 1 && r.errorTimes[|r.errorTimes| - 1] == at.epoch
    ensures Valid(b) ==> Valid(r)
  {
    LogAndStop(b, Line(RuntimeLimitReached), at)
  }

  // ---------------------------------------------------------------------------
  // start
  // ---------------------------------------------------------------------------

  /** `start`'s `(ok, message)` and the bot afterwards. */
  datatype StartResult = StartResult(ok: bool, message: string, bot: Bot)

  /**
   * `start`: refused while RUNNING, or when the plan's admission check refuses
   * (its message is passed through); otherwise the stop flag, restart count,
   * crash flag and error reason are reset and RUNNING is persisted. The status
   * itself only changes once the run loop launches the script.
   */
  function Start(b: Bot, admission: Plans.Admission): (r: StartResult)
    ensures b.status == RUNNING ==> r == StartResult(false, "Bot already running", b)
    ensures b.status != RUNNING && !admission.allowed ==> r == StartResult(false, admission.message, b)
    ensures r.ok <==> b.status != RUNNING && admission.allowed
    ensures r.ok ==> r.message == "Bot started"
    ensures r.ok ==> && !r.bot.stopRequested && r.bot.restartCount == 0 && !r.bot.crashDetected
                     && r.bot.errorReason == None && r.bot.persisted == RUNNING
                     && r.bot.status == b.status && r.bot.logs == b.logs
                     && r.bot.restartCount <= r.bot.maxRestarts
    ensures SameIdentity(b, r.bot) && (Valid(b) ==> Valid(r.bot))
  {
    if b.status == RUNNING then StartResult(false, "Bot already running", b)
    else if !admission.allowed then StartResult(false, admission.message, b)
    else StartResult(true, "Bot started",
                     b.(stopRequested := false, restartCount := 0, crashDetected := false,
                        errorReason := None, persisted := RUNNING))
  }

  // ---------------------------------------------------------------------------
  // The run loop
  // ---------------------------------------------------------------------------

  /** What `pip install -r requirements.txt` does, if there is a manifest. */
  datatype Requirements = NoManifest | InstallOk | InstallFailed(stderr: string)

  /** Who stops the bot while an attempt runs: a caller of `stop`, or the auto-stop timer. */
  datatype Interrupt = UserStop | RuntimeExpired

  /**
   * One launch attempt of the loop, observed from outside:
   * the process writes `output` and exits with `exitCode`; or a stop lands after
   * `output` and the process then exits with `exitCode`; or `Popen` (or the
   * communication with the child) raises an exception whose text is `error`.
   */
  datatype Attempt =
    | Exits(at: Clock, output: seq<string>, exitCode: int)
    | Interrupted(at: Clock, output: seq<string>, cause: Interrupt, exitCode: int)
    | LaunchFails(at: Clock, error: string)

  /**
   * What the run loop finds outside the bot: the manifest, whether `bot.py`
   * exists, the owner's plan limits (read for each attempt's auto-stop timer),
   * and the clock for the steps before the first attempt.
   */
  datatype RunEnv = RunEnv(requirements: Requirements, scriptExists: bool, limits: Plans.Limits, at: Clock)

  /** The bot after the loop, the number of launch attempts made, and whether the loop ended. */
  datatype Run = Run(bot: Bot, launches: nat, finished: bool)

  /** The result of one attempt and whether the loop goes back to its condition. */
  datatype Step = Step(bot: Bot, again: bool)

  /** `install_requirements`; the boolean is its return value. */
  datatype Installed = Installed(ok: bool, bot: Bot)

  function InstallRequirements(b: Bot, req: Requirements, at: Clock): (r: Installed)
    ensures r.ok <==> !req.InstallFailed?
    ensures r.bot == b.(logs := r.bot.logs, errorTimes := r.bot.errorTimes)
    ensures Valid(b) ==> Valid(r.bot)
  {
    match req
    case NoManifest => Installed(true, AddLog(b, Line(NoRequirements), false, at))
    case InstallOk => Installed(true, AddLog(b, Line(RequirementsInstalled), false, at))
    case InstallFailed(stderr) =>
      Installed(false, AddLog(b, Line(RequirementsFailed(stderr)), true, at))
  }

  /** Set and persist ERROR with a reason. */
  function Fail(b: Bot, reason: string): (r: Bot)
    ensures r.status == ERROR && r.persisted == ERROR && r.errorReason == Some(reason)
  {
    b.(status := ERROR, persisted := ERROR, errorReason := Some(reason))
  }

  /** Each output line, right-stripped by the reader, is logged as a non-error line. */
  function LogOutput(b: Bot, lines: seq<string>, at: Clock): (r: Bot)
    ensures r == b.(logs := r.logs)
    ensures Valid(b) ==> Valid(r)
    decreases |lines|
  {
    if lines == [] then b else LogOutput(AddLog(b, lines[0], false, at), lines[1..], at)
  }

  /**
   * The head of one loop iteration once `bot.py` was found: log the attempt,
   * set and persist RUNNING, record the start time and arm the auto-stop timer.
   */
  function Launch(b: Bot, at: Clock, limits: Plans.Limits): (r: Bot)
    ensures r.status == RUNNING && r.persisted == RUNNING && r.startTime == Some(at.iso)
    ensures r.autoStop == Some(Plans.AutoStopSeconds(limits))
    ensures r.restartCount == b.restartCount && r.stopRequested == b.stopRequested
    ensures r.errorReason == b.errorReason && r.process == b.process && SameIdentity(b, r)
    ensures Valid(b) ==> Valid(r)
  {
    AddLog(b, Line(Starting(b.restartCount + 1)), false, at)
      .(status := RUNNING, persisted := RUNNING, startTime := Some(at.iso),
        autoStop := Some(Plans.AutoStopSeconds(limits)))
  }

  /**
   * After the process has exited and its exit was logged: a non-zero exit without
   * a stop is a crash, which counts against the restart budget; once the budget
   * is spent the bot is put in ERROR. Anything else leaves the loop.
   */
  function AfterExit(b: Bot, exitCode: int, at: Clock): (r: Step)
    ensures r.again <==> !b.stopRequested && exitCode != 0
    ensures r.again ==> r.bot.restartCount == b.restartCount + 1 && r.bot.crashDetected
    ensures r.again && r.bot.restartCount <= r.bot.maxRestarts
            ==> r.bot.status == b.status && LastEntry(r.bot) == Some(Entry(
                  Line(Restarting(r.bot.restartCount, r.bot.maxRestarts)),
                  true, at))
    ensures r.again && r.bot.restartCount > r.bot.maxRestarts
            ==> r.bot.status == ERROR && r.bot.persisted == ERROR && r.bot.errorReason == Some("Max restarts")
    ensures !r.again ==> r.bot == b
    ensures r.bot.stopRequested == b.stopRequested && r.bot.process == b.process && SameIdentity(b, r.bot)
    ensures Valid(b) ==> Valid(r.bot)
  {
    if !b.stopRequested && exitCode != 0 then
      var crashed := b.(crashDetected := true, restartCount := b.restartCount + 1);
      if crashed.restartCount <= crashed.maxRestarts then
        Step(AddLog(crashed, Line(Restarting(crashed.restartCount, crashed.maxRestarts)), true, at), true)
      else
        Step(Fail(AddLog(crashed, Line(MaxRestartsExceeded), true, at), "Max restarts"), true)
    else Step(b, false)
  }

  /** A stop that lands while the process runs. */
  function StopWhileRunning(b: Bot, cause: Interrupt, at: Clock): (r: Bot)
    ensures r.status == STOPPED && r.persisted == STOPPED && r.autoStop == None
    ensures b.process == Alive ==> r.stopRequested && r.process == NoProcess
    ensures Valid(b) ==> Valid(r)
    ensures SameIdentity(b, r) && r.restartCount == b.restartCount && r.errorReason == b.errorReason
  {
    match cause
    case UserStop => Stop(b, at)
    case RuntimeExpired => AutoStop(b, at)
  }

  /** The text of the `AttributeError` raised by `self.process.wait()` once `stop` has set `self.process = None`. */
  const NoneWaitError: string := "'NoneType' object has no attribute 'wait'"

  /** An ERROR status is always persisted: the loop writes the row with every status change. */
  predicate Settled(b: Bot) {
    b.status == ERROR ==> b.persisted == ERROR
  }

  /** The exit of the child is logged and the auto-stop timer cancelled. */
  function Reap(b: Bot, exitCode: int, at: Clock): (r: Bot)
    ensures r == b.(logs := r.logs, autoStop := None)
    ensures LastEntry(r) == Some(Entry(Line(ExitedWith(exitCode)), false, at))
    ensures Valid(b) ==> Valid(r)
  {
    AddLog(b, Line(ExitedWith(exitCode)), false, at).(autoStop := None)
  }

  /** A launched process writes `output` and exits on its own with `exitCode`. */
  function ExitStep(b: Bot, at: Clock, output: seq<string>, exitCode: int): (r: Step)
    requires b.status == RUNNING && b.persisted == RUNNING
    ensures r.again <==> !b.stopRequested && exitCode != 0
    ensures !r.again ==> r.bot.status == RUNNING && r.bot.persisted == RUNNING
                         && r.bot.process == Exited && r.bot.restartCount == b.restartCount
    ensures r.again ==> r.bot.restartCount == b.restartCount + 1 && !r.bot.stopRequested
    ensures r.again && r.bot.restartCount <= r.bot.maxRestarts ==> r.bot.status == RUNNING
    ensures r.again && r.bot.restartCount > r.bot.maxRestarts
            ==> r.bot.status == ERROR && r.bot.persisted == ERROR && r.bot.errorReason == Some("Max restarts")
    ensures SameIdentity(b, r.bot) && (Valid(b) ==> Valid(r.bot))
  {
    var ran := LogOutput(b.(process := Alive), output, at);
    AfterExit(Reap(ran.(process := Exited), exitCode, at), exitCode, at)
  }

  /**
   * A stop lands while the process runs. This is the clean shutdown the stop
   * flag is meant to give: the reader waits for its own process, logs the exit
   * and leaves the loop.
   */
  function InterruptedStep(b: Bot, at: Clock, output: seq<string>, cause: Interrupt, exitCode: int): (r: Step)
    ensures !r.again && r.bot.status == STOPPED && r.bot.persisted == STOPPED
    ensures r.bot.stopRequested && r.bot.process == NoProcess && r.bot.autoStop == None
    ensures r.bot.restartCount == b.restartCount && r.bot.errorReason == b.errorReason
    ensures LastEntry(r.bot) == Some(Entry(Line(ExitedWith(exitCode)), false, at))
    ensures SameIdentity(b, r.bot) && (Valid(b) ==> Valid(r.bot))
  {
    var stopped := StopWhileRunning(LogOutput(b.(process := Alive), output, at), cause, at);
    AfterExit(Reap(stopped, exitCode, at), exitCode, at)
  }

  /** `Popen` or the communication with the child raises: the error is logged and the bot put in ERROR. */
  function LaunchFailStep(b: Bot, at: Clock, error: string): (r: Step)
    ensures !r.again && r.bot.status == ERROR && r.bot.persisted == ERROR && r.bot.errorReason == Some(error)
    ensures LastEntry(r.bot) == Some(Entry(Line(Failure(error)), true, at))
    ensures r.bot.restartCount == b.restartCount && r.bot.stopRequested == b.stopRequested
    ensures SameIdentity(b, r.bot) && (Valid(b) ==> Valid(r.bot))
  {
    Step(Fail(AddLog(b, Line(Failure(error)), true, at), error), false)
  }

  /** One launch attempt of the loop, on a bot the loop has just launched. */
  function AttemptStep(b: Bot, a: Attempt): (r: Step)
    requires b.status == RUNNING && b.persisted == RUNNING
    ensures a.LaunchFails? ==> !r.again && r.bot.status == ERROR && r.bot.errorReason == Some(a.error)
    ensures a.Interrupted? ==> !r.again && r.bot.status == STOPPED
    ensures a.Exits? ==> (r.again <==> !b.stopRequested && a.exitCode != 0)
    ensures r.again ==> r.bot.restartCount == b.restartCount + 1 && !r.bot.stopRequested
    ensures r.again && r.bot.status != ERROR ==> r.bot.restartCount <= r.bot.maxRestarts
    ensures r.again && r.bot.status == ERROR
            ==> r.bot.restartCount > r.bot.maxRestarts && r.bot.errorReason == Some("Max restarts")
    ensures !r.again ==> r.bot.restartCount == b.restartCount
    ensures !r.again && r.bot.status == ERROR ==> a.LaunchFails?
    ensures Settled(r.bot) && (r.bot.status == ERROR || r.bot.persisted == r.bot.status)
    ensures SameIdentity(b, r.bot) && (Valid(b) ==> Valid(r.bot))
  {
    match a
    case LaunchFails(at, error) => LaunchFailStep(b, at, error)
    case Exits(at, output, exitCode) => ExitStep(b, at, output, exitCode)
    case Interrupted(at, output, cause, exitCode) => InterruptedStep(b, at, output, cause, exitCode)
  }

  /**
   * The same attempt as `_run_bot` is written: `stop` has already set
   * `self.process = None` when the reader reaches `self.process.wait()`, whose
   * `AttributeError` lands in the `except` branch and puts the bot in ERROR.
   */
  function AttemptStepAsWritten(b: Bot, a: Attempt): (r: Step)
    requires b.status == RUNNING && b.persisted == RUNNING
    ensures a.Interrupted? ==> !r.again && r.bot.status == ERROR && r.bot.errorReason == Some(NoneWaitError)
    ensures !a.Interrupted? ==> r == AttemptStep(b, a)
  {
    match a
    case Interrupted(at, output, cause, _) =>
      var stopped := StopWhileRunning(LogOutput(b.(process := Alive), output, at), cause, at);
      LaunchFailStep(stopped, at, NoneWaitError)
    case _ => AttemptStep(b, a)
  }

  /** After the loop: STOPPED unless already ERROR, and the final "Bot stopped" line. */
  function Finish(b: Bot, at: Clock): (r: Bot)
    ensures r.status == (if b.status == ERROR then ERROR else STOPPED)
    ensures r.persisted == (if b.status == ERROR then b.persisted else STOPPED)
    ensures LastEntry(r) == Some(Entry(Line(BotStopped), false, at))
    ensures SameIdentity(b, r) && r.restartCount == b.restartCount && r.errorReason == b.errorReason
    ensures Valid(b) ==> Valid(r)
  {
    var settled := if b.status != ERROR then b.(status := STOPPED, persisted := STOPPED) else b;
    AddLog(settled, Line(BotStopped), false, at)
  }

  /**
   * The rest of a run whose live process a `stop` has just ended, as the loop is
   * meant to finish: the reader reaps its own process and logs the exit, the
   * stop flag ends the loop, and the final "Bot stopped" line is written.
   */
  function Unwind(b: Bot, exitCode: int, at: Clock): (r: Bot)
    ensures b.stopRequested && b.status == STOPPED ==>
              && r.status == STOPPED && r.persisted == STOPPED && r.errorReason == b.errorReason
              && r.restartCount == b.restartCount
    ensures LastEntry(r) == Some(Entry(Line(BotStopped), false, at))
    ensures SameIdentity(b, r) && (Valid(b) ==> Valid(r))
  {
    Finish(AfterExit(Reap(b, exitCode, at), exitCode, at).bot, at)
  }

  /**
   * The same rest of the run as `_run_bot` is written: the reader finds
   * `self.process` cleared by `stop`, the `AttributeError` lands in the `except`
   * branch, ERROR is persisted, and "Bot stopped" is still written last.
   */
  function UnwindAsWritten(b: Bot, exitCode: int, at: Clock): (r: Bot)
    ensures r.status == ERROR && r.persisted == ERROR && r.errorReason == Some(NoneWaitError)
    ensures LastEntry(r) == Some(Entry(Line(BotStopped), false, at))
    ensures SameIdentity(b, r) && (Valid(b) ==> Valid(r))
  {
    Finish(LaunchFailStep(b, at, NoneWaitError).bot, at)
  }

  /** Unwinding after a user's stop is how a run whose attempt was interrupted ends. */
  lemma UnwindEndsInterruptedRun(b: Bot, at: Clock, output: seq<string>, exitCode: int)
    ensures var running := LogOutput(b.(process := Alive), output, at);
            Finish(InterruptedStep(b, at, output, UserStop, exitCode).bot, at) == Unwind(Stop(running, at), exitCode, at)
  {
    var running := LogOutput(b.(process := Alive), output, at);
    assert StopWhileRunning(running, UserStop, at) == Stop(running, at);
  }

  /** The as-written unwinding is how the as-written interrupted attempt ends. */
  lemma UnwindAsWrittenEndsInterruptedRun(b: Bot, at: Clock, output: seq<string>, exitCode: int)
    requires b.status == RUNNING && b.persisted == RUNNING
    ensures var running := LogOutput(b.(process := Alive), output, at);
            Finish(AttemptStepAsWritten(b, Interrupted(at, output, UserStop, exitCode)).bot, at)
            == UnwindAsWritten(Stop(running, at), exitCode, at)
  {
    var running := LogOutput(b.(process := Alive), output, at);
    assert StopWhileRunning(running, UserStop, at) == Stop(running, at);
  }

  /** The loop condition holds: no stop requested and the restart budget not exceeded. */
  predicate MayLaunch(b: Bot) {
    !b.stopRequested && b.restartCount <= b.maxRestarts
  }

  /**
   * `while not stop_event.is_set() and restart_count <= max_restarts`, fed with
   * the attempts in order. `now` is the clock of the latest step. When the
   * attempts run out while the loop would launch again, the run is reported
   * unfinished.
   */
  function RunLoop(b: Bot, env: RunEnv, attempts: seq<Attempt>, now: Clock): (r: Run)
    ensures r.launches <= |attempts|
    ensures !r.finished ==> r.launches == |attempts| && MayLaunch(r.bot)
    ensures r.finished ==> r.bot.status != RUNNING
    ensures r.finished && (Settled(b) || MayLaunch(b)) ==> r.bot.persisted == r.bot.status
    ensures b.restartCount <= b.maxRestarts && r.bot.status != ERROR
            ==> r.bot.restartCount <= r.bot.maxRestarts
    ensures b.restartCount <= b.maxRestarts && r.bot.restartCount > r.bot.maxRestarts
            ==> r.bot.status == ERROR && r.bot.errorReason == Some("Max restarts")
    ensures SameIdentity(b, r.bot) && (Valid(b) ==> Valid(r.bot))
    decreases |attempts|
  {
    if !MayLaunch(b) then Run(Finish(b, now), 0, true)
    else if !env.scriptExists then
      Run(Fail(AddLog(b, Line(ScriptNotFound), true, now), "bot.py missing"), 0, true)
    else if attempts == [] then Run(b, 0, false)
    else
      var a := attempts[0];
      var step := AttemptStep(Launch(b, a.at, env.limits), a);
      if step.again then
        var rest := RunLoop(step.bot, env, attempts[1..], a.at);
        Run(rest.bot, rest.launches + 1, rest.finished)
      else Run(Finish(step.bot, a.at), 1, true)
  }

  /**
   * As written, `stop` raises the stop flag only while the child is alive. A stop
   * that lands during the two-second wait before a restart finds the child
   * already exited: the bot reads STOPPED, but the loop condition still holds
   * and the next iteration launches the script again.
   */
  lemma StopDuringBackOffIsIgnored(b: Bot, env: RunEnv, attempts: seq<Attempt>, at: Clock)
    requires b.process == Exited && MayLaunch(b) && env.scriptExists && attempts != []
    ensures var s := Stop(b, at);
            && s.status == STOPPED && s.persisted == STOPPED
            && MayLaunch(s)
            && RunLoop(s, env, attempts, at).launches >= 1
  {
    var s := Stop(b, at);
    assert MayLaunch(s);
  }

  /**
   * `stop` with the flag raised whatever the state of the child, as a stop
   * request evidently means: the same bot as `stop` leaves, but the loop will
   * not go round again.
   */
  function StopAndHalt(b: Bot, at: Clock): (r: Bot)
    ensures r.status == STOPPED && r.persisted == STOPPED && r.autoStop == None
    ensures !MayLaunch(r)
    ensures r.(stopRequested := false) == Stop(b, at).(stopRequested := false)
    ensures Valid(b) ==> Valid(r)
  {
    Stop(b, at).(stopRequested := true)
  }

  /** With the corrected stop, a stop during the wait ends the loop with no further launch. */
  lemma StopAndHaltDuringBackOffEndsRun(b: Bot, env: RunEnv, attempts: seq<Attempt>, at: Clock)
    ensures var r := RunLoop(StopAndHalt(b, at), env, attempts, at);
            && r.finished && r.launches == 0
            && r.bot.status == STOPPED && r.bot.persisted == STOPPED
            && LastEntry(r.bot) == Some(Entry(Line(BotStopped), false, at))
  {
  }

  /** `_run_bot`: install the requirements, then run the loop. */
  function RunBot(b: Bot, env: RunEnv, attempts: seq<Attempt>): (r: Run)
    ensures r.launches <= |attempts|
    ensures r.finished ==> r.bot.status != RUNNING
    ensures r.finished && (Settled(b) || MayLaunch(b)) ==> r.bot.persisted == r.bot.status
    ensures env.requirements.InstallFailed?
            ==> r.finished && r.launches == 0 && r.bot.status == ERROR
                && r.bot.errorReason == Some("Requirements installation failed")
    ensures SameIdentity(b, r.bot) && (Valid(b) ==> Valid(r.bot))
  {
    var installed := InstallRequirements(b, env.requirements, env.at);
    if !installed.ok then Run(Fail(installed.bot, "Requirements installation failed"), 0, true)
    else RunLoop(installed.bot, env, attempts, env.at)
  }

  // ---------------------------------------------------------------------------
  // Properties of the run loop
  // ---------------------------------------------------------------------------

  predicate AllCrash(attempts: seq<Attempt>) {
    forall i :: 0 <= i < |attempts| ==> attempts[i].Exits? && attempts[i].exitCode != 0
  }

  /**
   * From restart count `k`, a script that always exits non-zero is launched
   * `maxRestarts + 1 - k` more times and the loop ends in ERROR "Max restarts".
   */
  lemma {:induction false} CrashLoopFrom(b: Bot, env: RunEnv, attempts: seq<Attempt>, now: Clock)
    requires env.scriptExists && MayLaunch(b)
    requires AllCrash(attempts) && |attempts| >= b.maxRestarts + 1 - b.restartCount
    ensures var r := RunLoop(b, env, attempts, now);
            && r.finished && r.launches == b.maxRestarts + 1 - b.restartCount
            && r.bot.status == ERROR && r.bot.errorReason == Some("Max restarts")
            && r.bot.restartCount == b.maxRestarts + 1
    decreases |attempts|
  {
    var a := attempts[0];
    var step := AttemptStep(Launch(b, a.at, env.limits), a);
    assert step.again;
    if step.bot.restartCount <= step.bot.maxRestarts {
      CrashLoopFrom(step.bot, env, attempts[1..], a.at);
    } else {
      var rest := RunLoop(step.bot, env, attempts[1..], a.at);
      assert rest == Run(Finish(step.bot, a.at), 0, true);
    }
  }

  /**
   * After an accepted `start`, a script that always crashes is launched exactly
   * `maxRestarts + 1` times; the bot ends in ERROR with reason "Max restarts" and
   * a restart count of `maxRestarts + 1`.
   */
  lemma AlwaysCrashingScript(b: Bot, admission: Plans.Admission, env: RunEnv, attempts: seq<Attempt>)
    requires Start(b, admission).ok
    requires !env.requirements.InstallFailed? && env.scriptExists
    requires AllCrash(attempts) && |attempts| >= b.maxRestarts + 1
    ensures var r := RunBot(Start(b, admission).bot, env, attempts);
            && r.finished && r.launches == b.maxRestarts + 1
            && r.bot.status == ERROR && r.bot.errorReason == Some("Max restarts")
            && r.bot.restartCount == b.maxRestarts + 1
  {
    var started := Start(b, admission).bot;
    var installed := InstallRequirements(started, env.requirements, env.at);
    if installed.bot.status == ERROR {
      assert b.status == ERROR;
    }
    CrashLoopFrom(installed.bot, env, attempts, env.at);
  }

  /**
   * Whatever the attempts do, a run begun by an accepted `start` never ends with
   * a restart count above the budget unless it is in ERROR for that reason.
   */
  lemma RestartBudgetRespected(b: Bot, admission: Plans.Admission, env: RunEnv, attempts: seq<Attempt>)
    requires Start(b, admission).ok
    ensures var r := RunBot(Start(b, admission).bot, env, attempts);
            && (r.finished ==> r.bot.status != RUNNING && r.bot.persisted == r.bot.status)
            && (r.bot.status != ERROR ==> r.bot.restartCount <= r.bot.maxRestarts)
            && (r.bot.restartCount > r.bot.maxRestarts ==>
                  r.bot.status == ERROR && r.bot.errorReason == Some("Max restarts"))
  {
  }

  /** A clean exit on the first attempt ends the loop: STOPPED, one launch, "Bot stopped" last. */
  lemma CleanExitStops(b: Bot, admission: Plans.Admission, env: RunEnv, at: Clock, output: seq<string>, rest: seq<Attempt>)
    requires Start(b, admission).ok
    requires !env.requirements.InstallFailed? && env.scriptExists
    ensures var r := RunBot(Start(b, admission).bot, env, [Exits(at, output, 0)] + rest);
            && r.finished && r.launches == 1 && r.bot.status == STOPPED && r.bot.persisted == STOPPED
            && LastEntry(r.bot) == Some(Entry(Line(BotStopped), false, at))
  {
    var started := Start(b, admission).bot;
    var installed := InstallRequirements(started, env.requirements, env.at);
    var attempts := [Exits(at, output, 0)] + rest;
    assert attempts[0] == Exits(at, output, 0);
    var step := AttemptStep(Launch(installed.bot, at, env.limits), attempts[0]);
    assert !step.again;
  }

  /**
   * A stop that lands while the script runs ends the loop: one launch, status
   * STOPPED, the stop flag raised, and "Bot stopped" as the last line.
   */
  lemma StopDuringRunStops(b: Bot, admission: Plans.Admission, env: RunEnv, at: Clock,
                           output: seq<string>, cause: Interrupt, exitCode: int, rest: seq<Attempt>)
    requires Start(b, admission).ok
    requires !env.requirements.InstallFailed? && env.scriptExists
    ensures var r := RunBot(Start(b, admission).bot, env, [Interrupted(at, output, cause, exitCode)] + rest);
            && r.finished && r.launches == 1 && r.bot.status == STOPPED && r.bot.persisted == STOPPED
            && r.bot.errorReason == None && r.bot.process == NoProcess
            && LastEntry(r.bot) == Some(Entry(Line(BotStopped), false, at))
  {
    var started := Start(b, admission).bot;
    var installed := InstallRequirements(started, env.requirements, env.at);
    var attempts := [Interrupted(at, output, cause, exitCode)] + rest;
    assert attempts[0] == Interrupted(at, output, cause, exitCode);
  }

  /**
   * As written, the same stop leaves the bot in ERROR: once `stop` has cleared
   * `self.process`, the run loop's `self.process.wait()` raises and the `except`
   * branch records the error.
   */
  lemma StopDuringRunAsWrittenErrors(b: Bot, limits: Plans.Limits, at: Clock, output: seq<string>,
                                     cause: Interrupt, exitCode: int)
    ensures var launched := Launch(b, at, limits);
            var r := Finish(AttemptStepAsWritten(launched, Interrupted(at, output, cause, exitCode)).bot, at);
            r.status == ERROR && r.persisted == ERROR && r.errorReason == Some(NoneWaitError)
    ensures var launched := Launch(b, at, limits);
            var r := Finish(AttemptStep(launched, Interrupted(at, output, cause, exitCode)).bot, at);
            r.status == STOPPED && r.persisted == STOPPED
  {
  }

  /** A missing `bot.py` launches nothing, puts the bot in ERROR, and skips the final "Bot stopped" line. */
  lemma MissingScriptErrors(b: Bot, admission: Plans.Admission, env: RunEnv, attempts: seq<Attempt>)
    requires Start(b, admission).ok
    requires !env.requirements.InstallFailed? && !env.scriptExists
    ensures var r := RunBot(Start(b, admission).bot, env, attempts);
            && r.finished && r.launches == 0 && r.bot.status == ERROR && r.bot.persisted == ERROR
            && r.bot.errorReason == Some("bot.py missing")
            && LastEntry(r.bot) == Some(Entry(Line(ScriptNotFound), true, env.at))
  {
  }

  /** A failed requirements install launches nothing and leaves the bot in ERROR. */
  lemma FailedInstallErrors(b: Bot, env: RunEnv, attempts: seq<Attempt>, stderr: string)
    requires env.requirements == InstallFailed(stderr)
    ensures var r := RunBot(b, env, attempts);
            && r.finished && r.launches == 0 && r.bot.status == ERROR
            && r.bot.errorReason == Some("Requirements installation failed")
            && LastEntry(r.bot) == Some(Entry(Line(RequirementsFailed(stderr)), true, env.at))
  {
  }

  // ---------------------------------------------------------------------------
  // Resource monitor and command channel
  // ---------------------------------------------------------------------------

  const BytesPerMb: nat := 1048576

  /** `rss // (1024 * 1024)`. */
  function RamMb(rssBytes: nat): nat {
    rssBytes / BytesPerMb
  }

  /** The RAM check of `_monitor_resources`: whole megabytes above the plan limit. */
  predicate RamExceeded(rssBytes: nat, maxRamMb: nat) {
    RamMb(rssBytes) > maxRamMb
  }

  /** The check fires exactly from `(maxRamMb + 1)` MiB on: a partial megabyte never counts. */
  lemma RamExceededThreshold(rssBytes: nat, maxRamMb: nat)
    ensures RamExceeded(rssBytes, maxRamMb) <==> rssBytes >= (maxRamMb + 1) * BytesPerMb
  {
    var q := rssBytes / BytesPerMb;
    assert rssBytes == q * BytesPerMb + rssBytes % BytesPerMb;
    if q > maxRamMb {
      assert q >= maxRamMb + 1;
      assert q * BytesPerMb >= (maxRamMb + 1) * BytesPerMb;
    } else {
      assert q * BytesPerMb <= maxRamMb * BytesPerMb;
    }
  }

  /**
   * One psutil sample: the CPU percentage (and its text as Python prints it)
   * and the resident set size in bytes, or a failed read.
   */
  datatype Sample = Unreadable | Reading(cpu: real, cpuText: string, rssBytes: nat)

  /** The lines one monitor pass adds: an error line and a stop line for each limit exceeded, CPU first. */
  function MonitorLines(s: Sample, limits: Plans.Limits, at: Clock): seq<LogEntry>
    requires s.Reading?
  {
    LimitLines(s.cpu > limits.maxCpu as real, Line(CpuOverLimit(s.cpuText, limits.maxCpu)), at)
    + LimitLines(RamExceeded(s.rssBytes, limits.maxRamMb), Line(RamOverLimit(RamMb(s.rssBytes), limits.maxRamMb)), at)
  }

  /** The lines of one limit check: none, or the error line and a stop line. */
  function LimitLines(over: bool, line: string, at: Clock): seq<LogEntry> {
    if over then StopLines(line, at) else []
  }

  /**
   * One pass of `_monitor_resources` while the bot runs: record the sample, then
   * log and stop once for a CPU reading over the limit and once more for RAM, so
   * a bot over both limits gets two stop lines.
   */
  function MonitorStep(b: Bot, s: Sample, limits: Plans.Limits, at: Clock): (r: Bot)
    ensures !(b.status == RUNNING && b.process == Alive) || s.Unreadable? ==> r == b
    ensures b.status == RUNNING && b.process == Alive && s.Reading?
            && (s.cpu > limits.maxCpu as real || RamExceeded(s.rssBytes, limits.maxRamMb))
            ==> r.status == STOPPED && r.persisted == STOPPED && r.stopRequested && r.process == NoProcess
    ensures b.status == RUNNING && b.process == Alive && s.Reading?
            && !(s.cpu > limits.maxCpu as real) && !RamExceeded(s.rssBytes, limits.maxRamMb)
            ==> r == b.(cpuUsage := s.cpu, ramUsageMb := RamMb(s.rssBytes))
    ensures b.status == RUNNING && b.process == Alive && s.Reading? ==>
              && r.cpuUsage == s.cpu && r.ramUsageMb == RamMb(s.rssBytes)
              && r.logs == AppendAll(b.logs, MonitorLines(s, limits, at), MaxLogEntries)
              && (|b.logs| + 4 <= MaxLogEntries ==> r.logs == b.logs + MonitorLines(s, limits, at))
    ensures Valid(b) ==> Valid(r)
  {
    if !(b.status == RUNNING && b.process == Alive) then b
    else match s
      case Unreadable => b
      case Reading(_, _, _) =>
        MonitorReadingStatus(b, s, limits, at);
        MonitorReadingLogs(b, s, limits, at);
        MonitorReading(b, s, limits, at)
  }

  /** The `while` guard of `_monitor_resources`: RUNNING with a live process. */
  predicate Monitored(b: Bot) {
    b.status == RUNNING && b.process == Alive
  }

  /** One pass of the monitor thread: the sample it takes and the clock it logs with. */
  datatype Pass = Pass(sample: Sample, at: Clock)

  /**
   * The `_monitor_resources` thread, fed with one sample per pass. It leaves as
   * soon as its guard fails, so it never touches a bot it has not seen running,
   * and it leaves a bot it stopped alone.
   */
  function MonitorThread(b: Bot, passes: seq<Pass>, limits: Plans.Limits): (r: Bot)
    ensures !Monitored(b) ==> r == b
    ensures r.status == b.status || (r.status == STOPPED && r.persisted == STOPPED)
    ensures Monitored(b) && passes != [] && passes[0].sample.Reading?
            && (passes[0].sample.cpu > limits.maxCpu as real
                || RamExceeded(passes[0].sample.rssBytes, limits.maxRamMb))
            ==> r.status == STOPPED && r.persisted == STOPPED && r.stopRequested
    ensures Valid(b) ==> Valid(r)
    decreases |passes|
  {
    if !Monitored(b) || passes == [] then b
    else MonitorThread(MonitorStep(b, passes[0].sample, limits, passes[0].at), passes[1..], limits)
  }

  /**
   * `start` as written, with the monitor thread it spawns taking its first look
   * before the run thread has done anything: the status is still the one `start`
   * found, not RUNNING, so the guard fails at once and the thread ends.
   */
  function StartAsWritten(b: Bot, admission: Plans.Admission, passes: seq<Pass>, limits: Plans.Limits): (r: StartResult)
    ensures r.ok <==> Start(b, admission).ok
  {
    var started := Start(b, admission);
    if started.ok then started.(bot := MonitorThread(started.bot, passes, limits)) else started
  }

  /**
   * As written, the monitor never samples: whatever the readings would have
   * been, `start` leaves the bot as if no monitor existed, its usage figures
   * stay where they were, and no limit is ever enforced by that thread.
   */
  lemma MonitorStartedByStartNeverSamples(b: Bot, admission: Plans.Admission, passes: seq<Pass>, limits: Plans.Limits)
    ensures StartAsWritten(b, admission, passes, limits) == Start(b, admission)
    ensures StartAsWritten(b, admission, passes, limits).bot.cpuUsage == b.cpuUsage
    ensures StartAsWritten(b, admission, passes, limits).bot.ramUsageMb == b.ramUsageMb
  {
  }

  /**
   * The monitor started once the script is running, as `_monitor_resources`
   * evidently expects: a first reading over either limit stops the bot.
   */
  lemma MonitorAfterLaunchEnforcesLimits(b: Bot, at: Clock, limits: Plans.Limits, passes: seq<Pass>)
    requires passes != [] && passes[0].sample.Reading?
    requires passes[0].sample.cpu > limits.maxCpu as real || RamExceeded(passes[0].sample.rssBytes, limits.maxRamMb)
    ensures var r := MonitorThread(Launch(b, at, limits).(process := Alive), passes, limits);
            r.status == STOPPED && r.persisted == STOPPED && r.stopRequested
  {
  }

  /** The checks of one pass on a readable sample. */
  function MonitorReading(b: Bot, s: Sample, limits: Plans.Limits, at: Clock): (r: Bot)
    requires s.Reading?
    ensures r.cpuUsage == s.cpu && r.ramUsageMb == RamMb(s.rssBytes)
    ensures Valid(b) ==> Valid(r)
  {
    BothChecks(b.(cpuUsage := s.cpu, ramUsageMb := RamMb(s.rssBytes)),
               s.cpu > limits.maxCpu as real, Line(CpuOverLimit(s.cpuText, limits.maxCpu)),
               RamExceeded(s.rssBytes, limits.maxRamMb), Line(RamOverLimit(RamMb(s.rssBytes), limits.maxRamMb)), at)
  }

  /** The CPU check, then the RAM check, whatever the first one did. */
  function BothChecks(b: Bot, cpuOver: bool, cpuLine: string, ramOver: bool, ramLine: string, at: Clock): (r: Bot)
    ensures r.cpuUsage == b.cpuUsage && r.ramUsageMb == b.ramUsageMb
    ensures b.process == Alive && (cpuOver || ramOver)
            ==> r.status == STOPPED && r.persisted == STOPPED && r.stopRequested && r.process == NoProcess
    ensures !cpuOver && !ramOver ==> r == b
    ensures r.logs == AppendAll(b.logs, LimitLines(cpuOver, cpuLine, at) + LimitLines(ramOver, ramLine, at), MaxLogEntries)
    ensures |b.logs| + 4 <= MaxLogEntries
            ==> r.logs == b.logs + (LimitLines(cpuOver, cpuLine, at) + LimitLines(ramOver, ramLine, at))
    ensures Valid(b) ==> Valid(r)
  {
    var afterCpu := CheckLimit(b, cpuOver, cpuLine, at);
    var r := CheckLimit(afterCpu, ramOver, ramLine, at);
    MonitorAppends(b.logs, afterCpu.logs, r.logs, LimitLines(cpuOver, cpuLine, at), LimitLines(ramOver, ramLine, at));
    r
  }

  /** A pass over either limit stops the bot; a pass within both only records the sample. */
  lemma MonitorReadingStatus(b: Bot, s: Sample, limits: Plans.Limits, at: Clock)
    requires s.Reading? && b.process == Alive
    ensures var r := MonitorReading(b, s, limits, at);
            && ((s.cpu > limits.maxCpu as real || RamExceeded(s.rssBytes, limits.maxRamMb))
                ==> r.status == STOPPED && r.persisted == STOPPED && r.stopRequested && r.process == NoProcess)
            && (!(s.cpu > limits.maxCpu as real) && !RamExceeded(s.rssBytes, limits.maxRamMb)
                ==> r == b.(cpuUsage := s.cpu, ramUsageMb := RamMb(s.rssBytes)))
  {
  }

  /** A pass appends exactly its monitor lines to the log. */
  lemma MonitorReadingLogs(b: Bot, s: Sample, limits: Plans.Limits, at: Clock)
    requires s.Reading?
    ensures MonitorReading(b, s, limits, at).logs == AppendAll(b.logs, MonitorLines(s, limits, at), MaxLogEntries)
    ensures |b.logs| + 4 <= MaxLogEntries ==> MonitorReading(b, s, limits, at).logs == b.logs + MonitorLines(s, limits, at)
  {
  }

  /** One limit check of the monitor: when `over`, log `line` as an error and stop. */
  function CheckLimit(b: Bot, over: bool, line: string, at: Clock): (r: Bot)
    ensures !over ==> r == b
    ensures over ==> && r.status == STOPPED && r.persisted == STOPPED
                     && r.stopRequested == (b.stopRequested || b.process == Alive)
                     && r.process == (if b.process == Alive then NoProcess else b.process)
    ensures r.logs == AppendAll(b.logs, LimitLines(over, line, at), MaxLogEntries)
    ensures r.cpuUsage == b.cpuUsage && r.ramUsageMb == b.ramUsageMb
    ensures Valid(b) ==> Valid(r)
  {
    if over then LogAndStop(b, line, at) else b
  }

  /** The log after the CPU check and after the RAM check, as appends to the log before the pass. */
  lemma MonitorAppends(q: seq<LogEntry>, q1: seq<LogEntry>, q2: seq<LogEntry>,
                       cpuLines: seq<LogEntry>, ramLines: seq<LogEntry>)
    requires q1 == AppendAll(q, cpuLines, MaxLogEntries) && q2 == AppendAll(q1, ramLines, MaxLogEntries)
    ensures q2 == AppendAll(q, cpuLines + ramLines, MaxLogEntries)
    ensures |q| + |cpuLines + ramLines| <= MaxLogEntries ==> q2 == q + (cpuLines + ramLines)
  {
    AppendAllConcat(q, cpuLines, ramLines, MaxLogEntries);
    if |q| + |cpuLines + ramLines| <= MaxLogEntries {
      AppendAllRoom(q, cpuLines + ramLines, MaxLogEntries);
    }
  }

  /** `send_command`'s result, the exact text written to the child's stdin, and the bot afterwards. */
  datatype CommandResult = CommandResult(sent: bool, written: string, bot: Bot)

  /**
   * `send_command`: only with a live process. The command is sanitised, written
   * with a newline, and logged as `> ` followed by the sanitised text.
   */
  function SendCommand(b: Bot, cmd: string, at: Clock): (r: CommandResult)
    ensures r.sent <==> b.process == Alive
    ensures !r.sent ==> r.bot == b && r.written == []
    ensures r.sent ==> && r.written == Security.SanitizeText(cmd) + "\n"
                       && LastEntry(r.bot) == Some(Entry(Line(CommandEcho(Security.SanitizeText(cmd))), false, at))
                       && r.bot == b.(logs := r.bot.logs)
    ensures Valid(b) ==> Valid(r.bot)
  {
    if b.process == Alive then
      var sanitized := Security.SanitizeText(cmd);
      CommandResult(true, sanitized + "\n", AddLog(b, Line(CommandEcho(sanitized)), false, at))
    else CommandResult(false, [], b)
  }

  /**
   * What reaches the child's stdin is at most 200 characters plus the closing
   * newline, with none of the shell metacharacters, whatever the command was.
   * A newline is not a metacharacter, so the text may span several lines.
   */
  lemma CommandWrittenIsSafe(b: Bot, cmd: string, at: Clock)
    ensures var r := SendCommand(b, cmd, at);
            && |r.written| <= Security.MaxCommandLength + 1
            && Security.Clean(r.written)
            && (r.sent ==> r.written[|r.written| - 1] == '\n')
  {
    var r := SendCommand(b, cmd, at);
    if r.sent {
      var clean := Security.SanitizeText(cmd);
      assert Security.Clean(clean) && |clean| <= Security.MaxCommandLength by {
        Security.SanitizeTextSpec(cmd);
      }
      Security.CleanLine(clean);
    }
  }

  /**
   * A command that is already clean and short enough reaches stdin unchanged,
   * newlines included.
   */
  lemma CleanCommandPassesThrough(b: Bot, cmd: string, at: Clock)
    requires b.process == Alive && Security.Clean(cmd) && |cmd| <= Security.MaxCommandLength
    ensures SendCommand(b, cmd, at).written == cmd + "\n"
  {
    Security.SanitizeTextClean(cmd);
  }

  /** So a command with an embedded newline is written as two lines. */
  lemma EmbeddedNewlineIsWritten(b: Bot, at: Clock)
    requires b.process == Alive
    ensures SendCommand(b, "a\nb", at).written == "a\nb\n"
  {
    Security.NewlineTextClean();
    CleanCommandPassesThrough(b, "a\nb", at);
  }
}
