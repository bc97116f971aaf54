/**
 * The decisions the HTTP routes of backend/app.py make around the supervisor:
 * the bot-count cap on creation, the start/stop/restart routes, the "only while
 * RUNNING" gates, the status override and the plain-text log download. The
 * database is the `rows` of the bots table plus the users' plans; the session
 * user is a parameter.
 */
module Routes {
  import opened Wrappers
  import opened Text
  import opened Db
  import Plans
  import Utils
  import opened BotManager
  import opened Registry

  /** The state the routes read and write: the bots table, the plans of the users and the registry. */
  datatype World = World(rows: seq<BotRow>, users: Plans.Users, registry: Registry)

  /** An HTTP reply reduced to its status code and `success`/`message`-or-`error` text. */
  datatype Reply = Reply(code: nat, success: bool, message: string)

  /** A route's reply and the world afterwards. */
  datatype Outcome = Outcome(reply: Reply, world: World)

  // ---------------------------------------------------------------------------
  // create_bot
  // ---------------------------------------------------------------------------

  function MaxBotsMessage(maxBots: nat): string {
    "Max bots (" + NatToString(maxBots) + ") reached for your plan"
  }

  /**
   * `create_bot`: refused with 400 once the user owns `max_bots` rows of any
   * status; otherwise a STOPPED row named `botName` (default "My Bot") is inserted
   * under the fresh id `newId` and a supervisor is registered for it.
   */
  function CreateBot(w: World, userId: int, username: string, botName: Option<string>, newId: int): (r: Outcome)
    ensures var cap := Plans.GetUserLimits(w.users, userId).maxBots;
            && (!r.reply.success <==> CountAll(w.rows, userId) >= cap)
            && (!r.reply.success ==> r == Outcome(Reply(400, false, MaxBotsMessage(cap)), w))
    ensures r.reply.success ==>
              var name := botName.GetOr("My Bot");
              && r.world.rows == w.rows + [BotRow(newId, userId, name, STOPPED)]
              && Get(r.world.registry, userId, newId).Some?
              && Get(r.world.registry, userId, newId).value.status == STOPPED
              && Get(r.world.registry, userId, newId).value.botName == name
              && r.world.users == w.users
  {
    var limits := Plans.GetUserLimits(w.users, userId);
    if CountAll(w.rows, userId) >= limits.maxBots then
      Outcome(Reply(400, false, MaxBotsMessage(limits.maxBots)), w)
    else
      var name := botName.GetOr("My Bot");
      var rows := w.rows + [BotRow(newId, userId, name, STOPPED)];
      var registry := Create(w.registry, userId, newId, username, name, limits, STOPPED);
      Outcome(Reply(200, true, NatToString(if newId >= 0 then newId else 0)), w.(rows := rows, registry := registry))
  }

  /** Creation never takes a user past the plan's cap: within the cap before, within it after. */
  lemma CreateBotKeepsCap(w: World, userId: int, username: string, botName: Option<string>, newId: int)
    requires CountAll(w.rows, userId) <= Plans.GetUserLimits(w.users, userId).maxBots
    ensures CountAll(CreateBot(w, userId, username, botName, newId).world.rows, userId)
            <= Plans.GetUserLimits(w.users, userId).maxBots
  {
    var r := CreateBot(w, userId, username, botName, newId);
    if r.reply.success {
      var row := BotRow(newId, userId, botName.GetOr("My Bot"), STOPPED);
      CountAllAppend(w.rows, [row], userId);
      assert [row][1..] == [];
    }
  }

  // ---------------------------------------------------------------------------
  // start, stop, restart
  // ---------------------------------------------------------------------------

  /** Write the supervisor's persisted status into its row. */
  function Persist(rows: seq<BotRow>, bot: Bot): seq<BotRow> {
    SetStatus(rows, bot.botId, bot.persisted)
  }

  /**
   * `start_bot_route` after its rate limit: 403 for a suspended user, 404 when the
   * user owns no row with that id; otherwise the supervisor (created with an empty
   * name if missing) is asked to start with the plan's admission check `admit`
   * (`WrittenAdmission` for `can_start_bot` as written).
   */
  function StartRoute(w: World, suspended: bool, userId: int, username: string, botId: int,
                      admit: (Plans.Users, seq<BotRow>, int, int) -> Plans.Admission): (r: Outcome)
    ensures suspended ==> r == Outcome(Reply(403, false, "Your account is suspended"), w)
    ensures !suspended && !OwnsRow(w.rows, userId, botId) ==> r == Outcome(Reply(404, false, "Bot not found"), w)
    ensures !suspended && OwnsRow(w.rows, userId, botId) ==>
              var bot := ManagerOrNew(w, userId, username, botId);
              && r.reply.code == 200
              && (r.reply.success <==> bot.status != RUNNING && admit(w.users, w.rows, userId, botId).allowed)
              && Get(r.world.registry, userId, botId) == Some(Start(bot, admit(w.users, w.rows, userId, botId)).bot)
              && (r.reply.success ==> r.world.rows == SetStatus(w.rows, bot.botId, RUNNING))
              && (!r.reply.success ==> r.world.rows == w.rows)
  {
    if suspended then Outcome(Reply(403, false, "Your account is suspended"), w)
    else if !OwnsRow(w.rows, userId, botId) then Outcome(Reply(404, false, "Bot not found"), w)
    else
      var bot := ManagerOrNew(w, userId, username, botId);
      var started := Start(bot, admit(w.users, w.rows, userId, botId));
      var rows := if started.ok then Persist(w.rows, started.bot) else w.rows;
      Outcome(Reply(200, started.ok, started.message),
              w.(rows := rows, registry := Put(w.registry, userId, botId, started.bot)))
  }

  /** `SELECT id FROM bots WHERE id = ? AND user_id = ?` finds a row. */
  predicate OwnsRow(rows: seq<BotRow>, userId: int, botId: int) {
    exists k :: 0 <= k < |rows| && rows[k].id == botId && rows[k].userId == userId
  }

  /** The registered supervisor, or the one `start_bot_route` creates with an empty name. */
  function ManagerOrNew(w: World, userId: int, username: string, botId: int): Bot {
    match Get(w.registry, userId, botId)
    case Some(bot) => bot
    case None =>
      var row := FindRow(w.rows, botId);
      NewBot(userId, botId, username, "", Plans.GetUserLimits(w.users, userId),
             if row.Some? then row.value.status else STOPPED)
  }

  /** `stop_bot`: 404 without a supervisor; otherwise it is stopped, whatever its status. */
  function StopRoute(w: World, userId: int, botId: int, at: Clock): (r: Outcome)
    ensures Get(w.registry, userId, botId).None? ==> r == Outcome(Reply(404, false, "Bot not found"), w)
    ensures Get(w.registry, userId, botId).Some? ==>
              && r.reply == Reply(200, true, "")
              && Get(r.world.registry, userId, botId) == Some(Stop(Get(w.registry, userId, botId).value, at))
              && r.world.rows == SetStatus(w.rows, Get(w.registry, userId, botId).value.botId, STOPPED)
  {
    match Get(w.registry, userId, botId)
    case None => Outcome(Reply(404, false, "Bot not found"), w)
    case Some(bot) =>
      var stopped := Stop(bot, at);
      Outcome(Reply(200, true, ""), w.(rows := Persist(w.rows, stopped),
                                     registry := Put(w.registry, userId, botId, stopped)))
  }

  /**
   * `restart_bot`: 404 without a supervisor. A RUNNING one is stopped first; when
   * that stop ended a live process, the old run loop unwinds during the two-second
   * wait (`unwind`, whose exit code is `exitCode`) and writes its own status to the
   * row. Then `start` runs with the admission check on the rows as they are then.
   * The unwinding and the check are passed in so that the code as written and
   * the corrected code can be put in their place.
   */
  function RestartRoute(w: World, userId: int, botId: int, at: Clock, exitCode: int,
                        unwind: (Bot, int, Clock) -> Bot,
                        admit: (Plans.Users, seq<BotRow>, int, int) -> Plans.Admission): (r: Outcome)
    ensures Get(w.registry, userId, botId).None? ==> r == Outcome(Reply(404, false, "Bot not found"), w)
    ensures Get(w.registry, userId, botId).Some? ==>
              var bot := Get(w.registry, userId, botId).value;
              var before := RestartStop(bot, at, exitCode, unwind);
              var rows := if bot.status == RUNNING then SetStatus(w.rows, bot.botId, before.persisted) else w.rows;
              var started := Start(before, admit(w.users, rows, userId, bot.botId));
              && r.reply == Reply(200, started.ok, started.message)
              && Get(r.world.registry, userId, botId) == Some(started.bot)
              && (started.ok ==> r.world.rows == SetStatus(rows, bot.botId, RUNNING))
              && (!started.ok ==> r.world.rows == rows)
  {
    match Get(w.registry, userId, botId)
    case None => Outcome(Reply(404, false, "Bot not found"), w)
    case Some(bot) =>
      var before := RestartStop(bot, at, exitCode, unwind);
      var rows := if bot.status == RUNNING then SetStatus(w.rows, bot.botId, before.persisted) else w.rows;
      var started := Start(before, admit(w.users, rows, userId, bot.botId));
      Outcome(Reply(200, started.ok, started.message),
              w.(rows := if started.ok then SetStatus(rows, bot.botId, RUNNING) else rows,
                 registry := Put(w.registry, userId, botId, started.bot)))
  }

  /**
   * The supervisor when `start` is called: untouched unless RUNNING; otherwise
   * stopped, and unwound by its old loop when the stop ended a live process.
   */
  function RestartStop(bot: Bot, at: Clock, exitCode: int, unwind: (Bot, int, Clock) -> Bot): (r: Bot)
    ensures bot.status != RUNNING ==> r == bot
    ensures bot.status == RUNNING && bot.process != Alive ==> r == Stop(bot, at)
    ensures bot.status == RUNNING && bot.process == Alive ==> r == unwind(Stop(bot, at), exitCode, at)
  {
    if bot.status != RUNNING then bot
    else if bot.process == Alive then unwind(Stop(bot, at), exitCode, at)
    else Stop(bot, at)
  }

  /** `can_start_bot` as written, in the shape `RestartRoute` takes. */
  function WrittenAdmission(users: Plans.Users, rows: seq<BotRow>, userId: int, botId: int): Plans.Admission {
    Plans.CanStartBot(users, rows, userId)
  }

  /**
   * With the old loop ending as intended, restarting a running bot always passes
   * the admission check when its owner has no other active bot: the stop and the
   * unwinding leave its row STOPPED, so it frees its own slot before the count.
   */
  lemma RestartOfOnlyRunningBotSucceeds(w: World, userId: int, botId: int, at: Clock, exitCode: int)
    requires Get(w.registry, userId, botId).Some?
    requires Get(w.registry, userId, botId).value.status == RUNNING
    requires CountOtherActive(w.rows, userId, Get(w.registry, userId, botId).value.botId) == 0
    ensures RestartRoute(w, userId, botId, at, exitCode, Unwind, WrittenAdmission).reply == Reply(200, true, "Bot started")
  {
    var bot := Get(w.registry, userId, botId).value;
    var before := RestartStop(bot, at, exitCode, Unwind);
    assert before.status == STOPPED && before.persisted == STOPPED;
    StoppingFreesASlot(w.rows, userId, bot.botId);
    Plans.PlansOrdered();
  }

  /**
   * As written, restarting a FREE user's only bot while its script runs is
   * refused: the old loop unwinds into ERROR during the wait, writes ERROR to the
   * row, and `can_start_bot` counts that row against the cap of one.
   */
  lemma RestartOfRunningFreeBotAsWritten(w: World, userId: int, botId: int, at: Clock, exitCode: int)
    requires Get(w.registry, userId, botId).Some?
    requires Get(w.registry, userId, botId).value.status == RUNNING
    requires Get(w.registry, userId, botId).value.process == Alive
    requires Plans.GetUserLimits(w.users, userId) == Plans.Free
    requires w.rows == [BotRow(Get(w.registry, userId, botId).value.botId, userId, "bot", RUNNING)]
    ensures var r := RestartRoute(w, userId, botId, at, exitCode, UnwindAsWritten, WrittenAdmission);
            && r.reply == Reply(200, false, "Bot limit reached (1) for your plan")
            && Get(r.world.registry, userId, botId).value.status == ERROR
            && r.world.rows == [BotRow(Get(w.registry, userId, botId).value.botId, userId, "bot", ERROR)]
  {
    var bot := Get(w.registry, userId, botId).value;
    var before := RestartStop(bot, at, exitCode, UnwindAsWritten);
    assert before.persisted == ERROR;
    var rows := Persist(w.rows, before);
    assert rows == [BotRow(bot.botId, userId, "bot", ERROR)] by {
      assert rows[0] == w.rows[0].(status := ERROR);
    }
    Plans.ErroredBotBlocksItself(w.users, userId, bot.botId, "bot");
  }

  /**
   * As written, restarting a FREE user's only bot after it went to ERROR is
   * refused: it is not RUNNING, so it is not stopped, and its own ERROR row fills
   * the cap. With the corrected check the same restart is accepted.
   */
  lemma RestartOfErroredFreeBot(w: World, userId: int, botId: int, at: Clock, exitCode: int)
    requires Get(w.registry, userId, botId).Some?
    requires Get(w.registry, userId, botId).value.status == ERROR
    requires Plans.GetUserLimits(w.users, userId) == Plans.Free
    requires w.rows == [BotRow(Get(w.registry, userId, botId).value.botId, userId, "bot", ERROR)]
    ensures !RestartRoute(w, userId, botId, at, exitCode, UnwindAsWritten, WrittenAdmission).reply.success
    ensures RestartRoute(w, userId, botId, at, exitCode, Unwind, Plans.CanStartBotExcept).reply == Reply(200, true, "Bot started")
  {
    var bot := Get(w.registry, userId, botId).value;
    Plans.ErroredBotBlocksItself(w.users, userId, bot.botId, "bot");
  }

  /**
   * The start route shows the same refusal: a FREE user's bot in ERROR is turned
   * away with the plan's limit message as written, and started with the
   * corrected check.
   */
  lemma StartOfErroredFreeBot(w: World, userId: int, username: string, botId: int)
    requires Get(w.registry, userId, botId).Some?
    requires Get(w.registry, userId, botId).value.status == ERROR
    requires Plans.GetUserLimits(w.users, userId) == Plans.Free
    requires w.rows == [BotRow(botId, userId, "bot", ERROR)]
    ensures StartRoute(w, false, userId, username, botId, WrittenAdmission).reply
            == Reply(200, false, "Bot limit reached (1) for your plan")
    ensures StartRoute(w, false, userId, username, botId, Plans.CanStartBotExcept).reply
            == Reply(200, true, "Bot started")
  {
    Plans.ErroredBotBlocksItself(w.users, userId, botId, "bot");
    assert OwnsRow(w.rows, userId, botId) by {
      assert w.rows[0].id == botId && w.rows[0].userId == userId;
    }
  }

  // ---------------------------------------------------------------------------
  // Gates and the status override
  // ---------------------------------------------------------------------------

  /** `get_resources` as reported by `bot_resources`, before rounding. */
  datatype Resources = Resources(cpu: real, ramMb: nat)

  /** `bot_resources`: the supervisor's figures only while it is RUNNING, zeros otherwise. */
  function BotResources(w: World, userId: int, botId: int): (r: Resources)
    ensures r != Resources(0.0, 0) ==>
              Get(w.registry, userId, botId).Some? && Get(w.registry, userId, botId).value.status == RUNNING
    ensures Get(w.registry, userId, botId).Some? && Get(w.registry, userId, botId).value.status == RUNNING
            ==> r == Resources(Get(w.registry, userId, botId).value.cpuUsage,
                               Get(w.registry, userId, botId).value.ramUsageMb)
  {
    match Get(w.registry, userId, botId)
    case Some(bot) => if bot.status == RUNNING then Resources(bot.cpuUsage, bot.ramUsageMb) else Resources(0.0, 0)
    case None => Resources(0.0, 0)
  }

  /**
   * The figures the route reports are those of the monitor's latest reading: a
   * reading within the limits is shown as sampled, one over a limit stops the
   * bot and the route falls back to zeros, and so does any stop.
   */
  lemma ResourcesShowLatestReading(w: World, userId: int, botId: int, s: Sample, limits: Plans.Limits, at: Clock)
    requires Get(w.registry, userId, botId).Some?
    requires Get(w.registry, userId, botId).value.status == RUNNING
    requires Get(w.registry, userId, botId).value.process == Alive
    requires s.Reading?
    ensures var after := MonitorStep(Get(w.registry, userId, botId).value, s, limits, at);
            var shown := BotResources(w.(registry := Put(w.registry, userId, botId, after)), userId, botId);
            && (!(s.cpu > limits.maxCpu as real) && !RamExceeded(s.rssBytes, limits.maxRamMb)
                ==> shown == Resources(s.cpu, RamMb(s.rssBytes)))
            && (s.cpu > limits.maxCpu as real || RamExceeded(s.rssBytes, limits.maxRamMb)
                ==> shown == Resources(0.0, 0))
    ensures BotResources(StopRoute(w, userId, botId, at).world, userId, botId) == Resources(0.0, 0)
  {
  }

  /**
   * `send_command` route: 400 "Bot not running" unless a RUNNING supervisor
   * exists; otherwise the supervisor's own check decides `success`.
   */
  function CommandRoute(w: World, userId: int, botId: int, cmd: string, at: Clock): (r: Outcome)
    ensures !(Get(w.registry, userId, botId).Some? && Get(w.registry, userId, botId).value.status == RUNNING)
            ==> r == Outcome(Reply(400, false, "Bot not running"), w)
    ensures r.reply.success ==> && Get(w.registry, userId, botId).value.status == RUNNING
                                && Get(w.registry, userId, botId).value.process == Alive
    ensures r.world.rows == w.rows
  {
    match Get(w.registry, userId, botId)
    case Some(bot) =>
      if bot.status == RUNNING then
        var sent := SendCommand(bot, cmd, at);
        Outcome(Reply(200, sent.sent, ""), w.(registry := Put(w.registry, userId, botId, sent.bot)))
      else Outcome(Reply(400, false, "Bot not running"), w)
    case None => Outcome(Reply(400, false, "Bot not running"), w)
  }

  /** The fields `bot_status` adds when a supervisor exists; the start time is `isoformat()` text. */
  datatype Details = Details(startTime: Option<string>, restartCount: nat, errorReason: Option<string>)

  datatype StatusReport = StatusReport(status: Status, details: Option<Details>)

  /**
   * `bot_status`: the status column of the row with that id, or STOPPED when
   * there is none; the supervisor, if any, only contributes the details.
   */
  function BotStatus(w: World, userId: int, botId: int): (r: StatusReport)
    ensures FindRow(w.rows, botId).Some? ==> r.status == FindRow(w.rows, botId).value.status
    ensures FindRow(w.rows, botId).None? ==> r.status == STOPPED
    ensures r.details.Some? <==> Get(w.registry, userId, botId).Some?
    ensures r.details.Some? ==>
              var bot := Get(w.registry, userId, botId).value;
              && r.details.value.startTime == bot.startTime
              && r.details.value.restartCount == bot.restartCount
              && r.details.value.errorReason == bot.errorReason
  {
    var status := match FindRow(w.rows, botId) case Some(row) => row.status case None => STOPPED;
    match Get(w.registry, userId, botId)
    case Some(bot) => StatusReport(status, Some(Details(bot.startTime, bot.restartCount, bot.errorReason)))
    case None => StatusReport(status, None)
  }

  /** After a launch, the details report that launch's `isoformat()` time, not the log's stamp. */
  lemma StatusReportsLaunchTime(w: World, userId: int, botId: int, at: Clock, limits: Plans.Limits)
    requires Get(w.registry, userId, botId).Some?
    ensures var launched := Launch(Get(w.registry, userId, botId).value, at, limits);
            var report := BotStatus(w.(registry := Put(w.registry, userId, botId, launched)), userId, botId);
            report.details.Some? && report.details.value.startTime == Some(at.iso)
  {
  }

  /** The reported status does not depend on the supervisors at all. */
  lemma StatusIgnoresSupervisor(w: World, registry: Registry, userId: int, botId: int)
    ensures BotStatus(w, userId, botId).status == BotStatus(w.(registry := registry), userId, botId).status
  {
  }

  // ---------------------------------------------------------------------------
  // Logs
  // ---------------------------------------------------------------------------

  /** `get_logs` route: the last `max_log_lines` entries of the plan, or none without a supervisor. */
  function LogsRoute(w: World, userId: int, botId: int): (r: seq<LogEntry>)
    ensures |r| <= Plans.GetUserLimits(w.users, userId).maxLogLines
    ensures Get(w.registry, userId, botId).None? ==> r == []
    ensures Get(w.registry, userId, botId).Some? ==>
              var logs := Get(w.registry, userId, botId).value.logs;
              |r| <= |logs| && r == logs[|logs| - |r|..]
              && |r| == if |logs| <= Plans.GetUserLimits(w.users, userId).maxLogLines then |logs|
                        else Plans.GetUserLimits(w.users, userId).maxLogLines
  {
    match Get(w.registry, userId, botId)
    case Some(bot) =>
      Plans.PlansOrdered();
      GetLogs(bot, Plans.GetUserLimits(w.users, userId).maxLogLines)
    case None => []
  }

  /**
   * One line of the download: `[ts]`, a space, the `[ERROR]` marker or nothing,
   * a space, and the stored text. A non-error line therefore has two spaces
   * after the timestamp.
   */
  function DownloadLine(e: LogEntry): (r: string)
    ensures |r| == |e.timestamp| + |e.Text()| + (if e.isError then 11 else 4)
    ensures r[..|e.timestamp| + 3] == "[" + e.timestamp + "] "
    ensures r[|r| - |e.Text()|..] == e.Text()
  {
    "[" + e.timestamp + "] " + (if e.isError then "[ERROR]" else "") + " " + e.Text()
  }

  /** The marker between the timestamp and the text tells error lines apart. */
  lemma DownloadLineMarker(e: LogEntry)
    ensures var r := DownloadLine(e);
            && (e.isError ==> r[|e.timestamp| + 3..|e.timestamp| + 11] == "[ERROR] ")
            && (!e.isError ==> r[|e.timestamp| + 2..|e.timestamp| + 4] == "  ")
  {
  }

  function DownloadLines(logs: seq<LogEntry>): (r: seq<string>)
    ensures |r| == |logs|
    ensures forall k :: 0 <= k < |logs| ==> r[k] == DownloadLine(logs[k])
  {
    seq(|logs|, k requires 0 <= k < |logs| => DownloadLine(logs[k]))
  }

  /**
   * `download_logs` content: every stored entry (`get_logs(maxlen)`), one line
   * each, joined by newlines with none after the last.
   */
  function DownloadContent(bot: Bot): (r: string)
    ensures bot.logs == [] ==> r == []
  {
    Join(DownloadLines(GetLogs(bot, MaxLogEntries)), '\n')
  }

  /** The escaped text of a line without newlines has none either. */
  lemma EscapeKeepsLineBreaksOut(s: string)
    requires '\n' !in s
    ensures '\n' !in Utils.EscapeLogOutput(s)
  {
    var s1 := Replace(s, '&', "&amp;");
    ReplaceKeepsAbsent(s, '&', "&amp;", '\n');
    var s2 := Replace(s1, '<', "&lt;");
    ReplaceKeepsAbsent(s1, '<', "&lt;", '\n');
    var s3 := Replace(s2, '>', "&gt;");
    ReplaceKeepsAbsent(s2, '>', "&gt;", '\n');
    var s4 := Replace(s3, '"', "&quot;");
    ReplaceKeepsAbsent(s3, '"', "&quot;", '\n');
    ReplaceKeepsAbsent(s4, '\'', "&#x27;", '\n');
  }

  predicate SingleLine(e: LogEntry) {
    '\n' !in e.timestamp && '\n' !in e.line
  }

  /** A stored entry without newlines gives one download line without newlines. */
  lemma DownloadLineSingle(e: LogEntry)
    requires SingleLine(e)
    ensures '\n' !in DownloadLine(e)
  {
    EscapeKeepsLineBreaksOut(e.line);
    var marker := if e.isError then "[ERROR]" else "";
    assert DownloadLine(e) == "[" + e.timestamp + "] " + marker + " " + e.Text();
    assert '\n' !in "[" + e.timestamp + "] " + marker + " ";
  }

  /**
   * Splitting the download at newlines gives back exactly one line per stored
   * entry, in buffer order, as long as no entry holds a newline itself.
   */
  lemma DownloadRoundTrip(bot: Bot)
    requires Valid(bot) && bot.logs != []
    requires forall k :: 0 <= k < |bot.logs| ==> SingleLine(bot.logs[k])
    ensures Split(DownloadContent(bot), '\n') == DownloadLines(bot.logs)
  {
    assert GetLogs(bot, MaxLogEntries) == bot.logs;
    var lines := DownloadLines(bot.logs);
    forall k | 0 <= k < |lines|
      ensures '\n' !in lines[k]
    {
      DownloadLineSingle(bot.logs[k]);
    }
    SplitJoin(lines, '\n');
  }
}
