# Hosted-bot supervisor, modelled in Dafny

This project models the core of a small web service that hosts users' Telegram bots. The service has five parts:

- A per-bot supervisor (`BotProcess`) installs a bot's requirements and launches `bot.py`. It restarts the script after a crash, within the plan's restart budget. It also stops it on request or at the plan's runtime limit, and keeps a bounded, HTML-escaped log. A resource monitor is meant to stop it over the plan's CPU/RAM limits, but as written the monitor thread ends before its first sample (see Findings).
- A registry `user_bots[user_id][bot_id]` holds the supervisors.
- Subscription plans (FREE, PRO, ULTRA) cap bots, runtime, restarts, log lines, CPU and RAM.
- Security helpers sanitise commands, detect log spam and rate-limit requests.
- HTTP routes and a dashboard present all of this.

The supervisor is threaded and drives real processes. The model is sequential and functional:

- A bot is an immutable `Bot` record.
- Each launch attempt of the run loop is an `Attempt` value: the output lines, an exit code, a stop that lands during the run, or a launch failure.
- A stop or an auto-stop is an event between two steps.
- The clock is a parameter (`Clock`: the `strftime` text of the log, the `isoformat()` text `bot_status` reports as the start time, and the `time.time()` value).
- The `bots.status` column the supervisor writes is mirrored in the record as `persisted`.
- The database the routes read is a sequence of `BotRow`s plus the users' plan names.

Modules, one per file:

| file | module | models |
|---|---|---|
| wrappers.dfy | Wrappers | `Option` |
| text.dfy | Text | decimal rendering, `str.replace`, `'\n'.join`, `split('\n')`, `padStart` |
| deque.dfy | Deque | `deque(maxlen)` append and the `[-n:]` slice |
| db.dfy | Db | the `bots` table rows and the counting queries |
| plans.dfy | Plans | plan_manager.py |
| security.dfy | Security | backend/security.py |
| utils.dfy | Utils | utils.py (validators, `html.escape`) |
| bot_manager.dfy | BotManager | `BotProcess` in bot_manager.py |
| registry.dfy | Registry | `get_bot_manager`, `create_bot_manager`, `delete_bot_manager` |
| routes.dfy | Routes | the bot routes of backend/app.py |
| dashboard.dfy | Dashboard | timer, controls, CPU bar and console of frontend/script.js |

Where the model departs from a natural reading of the service's description, it follows the code:

- A non-error line of the log download has two spaces after the timestamp.
- `create_bot_manager` overwrites an existing supervisor.
- `stop` logs "Bot stopped by user" on every call.
- `bot_status` reports the database row's status, never the supervisor's.
- A log entry keeps the raw line, and the escaped text is derived from it (`LogEntry.Text`). Escaping depends on the line alone, so the stored text is the same.

## Model

| member | source | states |
|---|---|---|
| Deque.BoundedAppend | bot_manager.py:27 | appending to a full deque drops exactly the oldest entry; the length never passes `maxlen` and the new entry is last |
| Deque.BoundedAppendFifo | bot_manager.py:200 | below capacity an append keeps every entry; at capacity the result is the old tail plus the new entry |
| Deque.GetLogs | bot_manager.py:208-210 | `list(q)[-n:]` is always a suffix of the buffer; `n >= 1` gives the last `min(n, len)` entries; `n == 0` gives all of them |
| Deque.AppendAllKeepsNewest | bot_manager.py:37 | a bounded deque fed any sequence holds exactly the last `maxlen` values ever appended |
| Db.CountActiveAppend | plan_manager.py:55 | the count of a user's non-STOPPED rows over two tables is the sum of the two counts |
| Db.CountActiveSingle | plan_manager.py:55 | one row of the user counts exactly when its status is not STOPPED, and never counts against itself |
| Db.CountAllAppend | backend/app.py:86 | the count of all a user's rows over two tables is the sum of the two counts |
| Db.CountsOrdered | plan_manager.py:55 | not counting one bot never gives more than the full active count, which never exceeds the total count |
| Db.FindRow | backend/app.py:227 | the lookup by id finds a row exactly when one has that id, and that row has it |
| Db.SetStatus | bot_manager.py:232-238 | `UPDATE ... WHERE id = ?` changes the status of the rows with that id only, and a missing id changes nothing |
| Db.StoppingFreesASlot | bot_manager.py:191-192 | after a bot's row is set to STOPPED, the owner's active count is the count of their other active bots |
| Plans.PlansOrdered | plan_manager.py:4-32 | every numeric limit is non-decreasing from FREE to PRO to ULTRA, and all are positive |
| Plans.GetPlanLimits | plan_manager.py:43-44 | a known plan name gives its entry; any other name gives FREE |
| Plans.GetUserPlan | plan_manager.py:34-41 | a user without a row has plan 'FREE' |
| Plans.GetUserLimits | plan_manager.py:46-48 | every user gets one of the three plans, never less than FREE |
| Plans.UnknownUserGetsFree | plan_manager.py:34-48 | a missing user, or one with an unknown plan name, gets the FREE limits |
| Plans.AutoStopDurations | bot_manager.py:108-110 | the auto-stop delay is one day on FREE, three days on PRO and a year on ULTRA |
| Plans.CanStartBot | plan_manager.py:50-59 | admits exactly when the user's non-STOPPED rows are fewer than `max_bots`; the refusal names the cap |
| Plans.LimitMessageNamesCap | plan_manager.py:58 | different caps give different refusal messages |
| Plans.ErroredBotBlocksItself | plan_manager.py:55-59 | a FREE user's only bot, in ERROR, is refused with "Bot limit reached (1) for your plan" |
| Plans.CanStartBotExcept | plan_manager.py:50-59 | the corrected check: admits exactly when the user's other non-STOPPED bots are fewer than `max_bots` |
| Plans.AdmissionExceptWeaker | plan_manager.py:55-57 | the corrected check admits everything the written one admits |
| Plans.UpgradeUserPlan | plan_manager.py:61-69 | an unknown plan is rejected with 'Invalid plan' and no write; otherwise the user's limits become that plan's and no other user changes |
| Security.SanitizeTextSpec | backend/security.py:25-33 | the result is the input with the eleven metacharacters deleted, cut to 200; it has none of them and is a subsequence of the input |
| Security.DeleteEachIsFilter | backend/security.py:31-32 | deleting the characters one `replace` at a time is one filter by the whole set |
| Security.SanitizeTextClean | backend/security.py:25-33 | an input of at most 200 characters without metacharacters comes back unchanged |
| Security.SanitizeTextIdempotent | backend/security.py:25-33 | sanitising twice is sanitising once |
| Security.SanitizeInput | backend/security.py:27-28 | None and the empty string come back unchanged; other text is sanitised |
| Security.CheckSpamCounts | backend/security.py:35-39 | spam is flagged exactly when more than `threshold` stamps lie within the window |
| Security.RecentCount | backend/security.py:38 | the list comprehension keeps exactly the stamps within the window |
| Security.AddingStampKeepsSpam | backend/security.py:37-39 | for a fixed `now`, one more stamp never clears the spam flag |
| Security.HundredAndFirstErrorIsSpam | bot_manager.py:202-204 | with 101 error stamps inside one minute, the 101st append to the 200-entry window raises the flag and none before it does |
| Security.AdmitRequest | backend/security.py:14-20 | a request is admitted exactly when fewer than 5 stamps remain after pruning; a refusal keeps the pruned window without `now` |
| Security.PruneTwice | backend/security.py:17 | pruning earlier, then later, is pruning later |
| Security.RateLimit | backend/security.py:10-23 | only the requesting key's window changes, and a missing key starts empty |
| Security.RateLimitKeepsWindowsSmall | backend/security.py:18-20 | no stored window ever holds more than 5 stamps |
| Security.ReplayTracksAccepted | backend/security.py:14-20 | after a run of requests, the stored window is the accepted history pruned at the last request |
| Security.AtMostFiveAcceptedPerWindow | backend/security.py:6-8 | for non-decreasing request times, at most 5 accepted requests fall in the 10 seconds before the latest |
| Utils.ValidateFileExtension | utils.py:15-16 | true exactly for the whole names 'requirements.txt' and 'bot.py' |
| Utils.ExtensionCheckIsWholeName | utils.py:7 | 'BOT.py', 'x/bot.py', 'bot.py ' and 'main.py' are refused |
| Utils.ValidateFileSize | utils.py:18-22 | accepted exactly when the size is at most 1048576, and the file is left at position 0 |
| Utils.SizeBoundaryInclusive | utils.py:8 | exactly 1 MiB is accepted and one byte more is refused |
| Utils.EscapeIsPerCharacter | utils.py:34-37 | the five successive replacements escape each character on its own, as a per-character map |
| Utils.EscapeMap | utils.py:34-37 | the escaped text has no `<`, `>`, `"` or `'`, and is at least as long as the input |
| Utils.EscapeLogOutputChar | utils.py:37 | each special character maps to its entity and every other character to itself |
| Utils.EscapePlainText | utils.py:37 | text without the five special characters is logged unchanged |
| Utils.AmpersandsOpenEntities | utils.py:37 | every `&` in the output starts one of the five entities |
| Utils.UnescapeEscape | utils.py:34-37 | escaping loses nothing: decoding the entities gives the line back |
| Utils.EscapeNotIdempotent | utils.py:37 | escaping an escaped `&` changes it again |
| BotManager.NewBot | bot_manager.py:20-38 | a new supervisor is STOPPED with no process, empty logs, zero restarts and the plan's restart budget |
| BotManager.AddLog | bot_manager.py:197-203 | the new entry is last; the buffer keeps every older entry below 5000 and drops the oldest at 5000; only an error line records its time; nothing else changes |
| BotManager.GetLogs | bot_manager.py:208-210 | the read is a suffix of the buffer, the last `n` entries in order; 0 reads everything |
| BotManager.GetLogsDefault | bot_manager.py:208-210 | the default read returns the newest 500 entries, or all of them when there are fewer |
| BotManager.Stop | bot_manager.py:173-195 | the bot is STOPPED and persisted so, the timer is cancelled and "Bot stopped by user" is logged; the stop flag is raised and the handle dropped only when a live process exists |
| BotManager.StopTwice | bot_manager.py:173-195 | a second stop changes nothing but the log, which gains another "Bot stopped by user" line |
| BotManager.StopDuringBackOffIsIgnored | bot_manager.py:175-177 | as written, a stop during the wait before a restart leaves the loop condition true: the bot reads STOPPED, yet the loop launches the script again |
| BotManager.StopAndHalt | bot_manager.py:173-177 | the corrected stop leaves the bot as `stop` does, but with the loop condition false |
| BotManager.StopAndHaltDuringBackOffEndsRun | bot_manager.py:93-167 | with the corrected stop, the loop ends without another launch, STOPPED and persisted so, with 'Bot stopped' last |
| BotManager.AutoStop | bot_manager.py:169-171 | the runtime limit logs '24-hour runtime limit reached. Auto-stopping.' as an error, then stops the bot exactly as `stop` does: the result is `stop`'s but for the log and the error times, and with room in the buffer the log gains exactly the error line and 'Bot stopped by user' |
| BotManager.LogAndStop | bot_manager.py:169-171 | an error line followed by a stop: the bot equals `stop`'s but for the log, which gains exactly those two entries, and the error's time is recorded |
| BotManager.Start | bot_manager.py:56-83 | refused unchanged while RUNNING or when admission refuses; otherwise the stop flag, restart count, crash flag and reason are reset, RUNNING is persisted and the answer is 'Bot started' |
| BotManager.InstallRequirements | bot_manager.py:43-54 | fails exactly when pip fails; only the log changes |
| BotManager.Launch | bot_manager.py:102-112 | each launch sets and persists RUNNING, records the start time as `isoformat()` text and arms a timer of the plan's runtime |
| BotManager.AfterExit | bot_manager.py:141-155 | a non-zero exit without a stop counts a crash; within budget the loop restarts, past it the bot is ERROR 'Max restarts'; anything else leaves the loop unchanged |
| BotManager.AttemptStep | bot_manager.py:114-162 | one attempt: a launch failure gives ERROR with its text; a stop during the run gives STOPPED; an exit goes round again exactly on a crash; a running bot stays within budget |
| BotManager.InterruptedStep | bot_manager.py:127-139 | a stop during the run ends the attempt STOPPED, with the exit logged and the loop left |
| BotManager.AttemptStepAsWritten | bot_manager.py:134 | as written, when `stop` clears the handle (line 190) before the reader reaches `self.process.wait()`, the interrupted attempt ends in ERROR with the `AttributeError` text |
| BotManager.Finish | bot_manager.py:164-167 | after the loop the bot is STOPPED unless already ERROR, and "Bot stopped" is the last line |
| BotManager.RunLoop | bot_manager.py:93-167 | a finished loop never leaves the bot RUNNING and persists its status; the restart count passes the budget only in ERROR 'Max restarts' |
| BotManager.RunBot | bot_manager.py:85-91 | a failed install launches nothing and gives ERROR 'Requirements installation failed' |
| BotManager.AlwaysCrashingScript | bot_manager.py:93-152 | a script that always exits non-zero is launched exactly `max_restarts + 1` times and ends ERROR 'Max restarts' with that restart count |
| BotManager.CrashLoopFrom | bot_manager.py:93-152 | from restart count `k`, `max_restarts + 1 - k` more crashes end the loop in ERROR |
| BotManager.RestartBudgetRespected | bot_manager.py:144-152 | whatever the attempts, a started run ends within budget unless it is ERROR 'Max restarts' |
| BotManager.CleanExitStops | bot_manager.py:141-167 | exit code 0 ends the loop after one launch, STOPPED, with "Bot stopped" last |
| BotManager.StopDuringRunStops | bot_manager.py:127-167 | a stop during the run ends the loop after one launch, STOPPED with no error reason, "Bot stopped" last |
| BotManager.StopDuringRunAsWrittenErrors | bot_manager.py:134-162 | as written, a stop whose handle clearing (line 190) comes before the reader's `wait()` ends the run in ERROR with the `AttributeError` text; the corrected step ends STOPPED |
| BotManager.MissingScriptErrors | bot_manager.py:95-100 | a missing bot.py launches nothing, gives ERROR 'bot.py missing' and skips "Bot stopped" |
| BotManager.FailedInstallErrors | bot_manager.py:87-91 | a failed install launches nothing, gives ERROR and logs pip's stderr last |
| BotManager.RamExceededThreshold | bot_manager.py:218-225 | the RAM check fires exactly from `(max_ram_mb + 1)` MiB of RSS; a partial megabyte never counts |
| BotManager.MonitorStep | bot_manager.py:212-230 | a reading is recorded; a CPU or RAM reading over the plan's limit stops the bot, and each limit passed logs its own error line ('CPU usage … exceeds limit', 'RAM usage …MB exceeds limit') followed by its own 'Bot stopped by user', so a reading over both limits stops twice; a reading within limits is only recorded; an unreadable sample changes nothing |
| BotManager.MonitorThread | bot_manager.py:212-230 | the monitor loop leaves as soon as the bot is not RUNNING with a live process; it never changes a bot it has not seen running, ends with the status unchanged or STOPPED and persisted, and a first reading over either limit stops the bot |
| BotManager.StartAsWritten | bot_manager.py:56-83 | `start` with the monitor thread it spawns: it succeeds exactly when `start` does |
| BotManager.MonitorStartedByStartNeverSamples | bot_manager.py:80-82 | as written the monitor spawned by `start` finds the bot not yet RUNNING and ends at once: `start` leaves the bot as if no monitor existed, with its CPU and RAM figures unchanged, whatever the samples |
| BotManager.MonitorAfterLaunchEnforcesLimits | bot_manager.py:212-228 | a monitor started once the script runs stops the bot on a first reading over either limit |
| BotManager.SendCommand | bot_manager.py:240-247 | sends only to a live process; what is written is the sanitised command and a newline, echoed as `> ` in the log |
| BotManager.CommandWrittenIsSafe | bot_manager.py:241-243 | whatever the command, stdin receives at most 201 characters, with no metacharacter, ending in a newline |
| BotManager.CleanCommandPassesThrough | backend/security.py:25-32 | a clean command of at most 200 characters reaches stdin unchanged, newlines included |
| BotManager.EmbeddedNewlineIsWritten | bot_manager.py:241-243 | the command "a\nb" is written as "a\nb\n": two lines reach the script |
| Security.NewlineTextClean | backend/security.py:29-31 | a newline is not among the deleted characters, so "a\nb" is clean |
| Registry.Get | bot_manager.py:255-259 | finds a supervisor exactly when both keys are present |
| Registry.Put | bot_manager.py:262-266 | stores under one key pair and changes no other |
| Registry.Create | bot_manager.py:261-266 | a fresh supervisor under the key pair, other keys unchanged |
| Registry.CreateOverwrites | bot_manager.py:265 | creating over an existing supervisor discards it, logs and all |
| Registry.Delete | bot_manager.py:268-275 | a present key is removed after stopping a RUNNING supervisor; an absent key changes nothing |
| Registry.DeleteRemovesOnlyItsKey | bot_manager.py:268-275 | after delete the key is gone and every other key maps as before |
| Registry.CreateThenDelete | bot_manager.py:261-275 | delete after create removes the new supervisor and restores every other key |
| Routes.CreateBot | backend/app.py:74-99 | refused with 400 exactly when the user owns `max_bots` rows of any status; otherwise a STOPPED row (default name 'My Bot') and a supervisor are added |
| Routes.CreateBotKeepsCap | backend/app.py:83-91 | creation never takes a user past the cap |
| Routes.StartRoute | backend/app.py:145-172 | 403 for a suspended user, 404 without the user's row; otherwise the supervisor, created if missing, is started and its row persisted |
| Routes.StartOfErroredFreeBot | backend/app.py:166-172 | as written a FREE user's bot in ERROR is refused at the start route; with the corrected check it starts |
| Routes.StopRoute | backend/app.py:174-185 | 404 without a supervisor; otherwise it is stopped and its row set to STOPPED |
| Routes.RestartRoute | backend/app.py:187-202 | stops only a RUNNING supervisor; when that stop ended a live process, the old run loop unwinds during the wait and writes its status to the row; then it always starts, admitting on the rows as they are at that point |
| Routes.RestartStop | backend/app.py:195-199 | the supervisor `start` sees: untouched unless RUNNING, stopped, and unwound by its old loop when the stop ended a live process |
| BotManager.Unwind | bot_manager.py:133-167 | the old loop, once its process is stopped, reaps it and leaves: a stopped bot stays STOPPED and persisted so, with its reason and restart count, and 'Bot stopped' is the last line |
| BotManager.UnwindAsWritten | bot_manager.py:134-167 | as written, when `stop` has cleared the handle before the old loop reaches `wait()`, that call raises, and the bot ends in ERROR, persisted so, with the `AttributeError` text |
| BotManager.UnwindEndsInterruptedRun | bot_manager.py:127-167 | the unwinding is the end of the attempt a stop interrupted, under the corrected attempt step |
| BotManager.UnwindAsWrittenEndsInterruptedRun | bot_manager.py:134-167 | the as-written unwinding is the end of the attempt a stop interrupted, under the attempt step as written |
| Routes.RestartOfOnlyRunningBotSucceeds | backend/app.py:194-200 | with the old loop unwinding as intended, restarting a user's only running bot is admitted, because the stop leaves its row STOPPED and frees its own slot |
| Routes.RestartOfRunningFreeBotAsWritten | backend/app.py:193-200 | as written, restarting a FREE user's only bot while its script runs, when the stop clears the handle before the old loop's `wait()`, answers 'Bot limit reached (1) for your plan', and the bot and its row are left in ERROR |
| Routes.RestartOfErroredFreeBot | backend/app.py:194-200 | as written a FREE user's bot in ERROR cannot be restarted; with the corrected check it can |
| Routes.BotResources | backend/app.py:248-256 | figures only from a RUNNING supervisor, zeros otherwise |
| Routes.ResourcesShowLatestReading | backend/app.py:254-256 | after a monitor reading within the limits the route shows exactly that reading; after one over a limit, or after any stop, it shows zeros |
| Routes.CommandRoute | backend/app.py:258-269 | 'Bot not running' unless a RUNNING supervisor exists; a sent command needs a live process; no row changes |
| Routes.BotStatus | backend/app.py:217-246 | the status is the row's, or STOPPED without a row; details appear exactly when a supervisor exists, and carry its start time (as `isoformat()` text), restart count and error reason |
| Routes.StatusReportsLaunchTime | backend/app.py:236 | after a launch the reported start time is that launch's `isoformat()` text |
| Routes.LogsRoute | backend/app.py:204-215 | at most the plan's `max_log_lines` entries, the newest, in order; none without a supervisor |
| Routes.DownloadLine | backend/app.py:280 | a line is the bracketed timestamp, a space, the marker, a space and the stored text |
| Routes.DownloadLineMarker | backend/app.py:280 | an error line carries `[ERROR] `; a non-error line has two spaces after the timestamp |
| Routes.DownloadRoundTrip | backend/app.py:279-280 | splitting the download at newlines gives one line per stored entry, in order, when no entry holds a newline |
| Routes.EscapeKeepsLineBreaksOut | backend/app.py:280 | escaping never introduces a newline into a line |
| Dashboard.JsRem | frontend/script.js:331-333 | JavaScript `%` is the remainder of truncating division and takes the sign of the dividend |
| Dashboard.ElapsedSeconds | frontend/script.js:329 | whole seconds between the start and now, rounded down |
| Dashboard.TimerFieldsDecompose | frontend/script.js:330-333 | for a non-negative time, hours, minutes and seconds are its mixed-radix digits |
| Dashboard.TimerRoundTrip | frontend/script.js:337 | under 100 hours the text is 8 characters `HH:MM:SS` that read back as the elapsed seconds |
| Dashboard.NegativeElapsedShowsMinus | frontend/script.js:329-337 | a start time one second in the future shows "-1:-1:-1" |
| Dashboard.WarningHourBeforeFreeLimit | frontend/script.js:338-340 | the warning appears from hour 23, one hour before the FREE plan's auto-stop |
| Dashboard.StopTimer | frontend/script.js:345-356 | the timer is disarmed, shows the text of zero seconds, loses the warning and counts 0 |
| Dashboard.StartTimer | frontend/script.js:323-327 | the timer is armed exactly when a start time is known, and always starts from a cleared display: no warning, zero seconds, the text of zero seconds |
| Dashboard.Tick | frontend/script.js:327-341 | each tick records the elapsed seconds, shows them as the `HH:MM:SS` text of that count, and only ever adds the warning |
| Dashboard.WarningIsSticky | frontend/script.js:338-340 | after any ticks the warning is on exactly when it was on before or some tick reached hour 23 |
| Dashboard.Buttons | frontend/script.js:262-274 | RUNNING disables start and enables the rest; any other status gives the exact opposite |
| Dashboard.StartButtonMatchesStart | frontend/script.js:262-274 | the buttons follow the status `/bot/status` reports, the row's; while it agrees with the supervisor's, the start route succeeds exactly when the start button is enabled and the plan admits; right after an accepted start the page shows the running controls while the supervisor is not yet RUNNING |
| Dashboard.CpuClassMonotone | frontend/script.js:309 | danger exactly above 80, at least warning exactly above 50, and a higher reading never shows a calmer class |
| Dashboard.ConsoleTextInert | frontend/script.js:286-288 | the text shown in a console line, escaped on the server, has no angle bracket or quote, so a log line cannot open or close a tag |
| Dashboard.ConsoleLineClass | frontend/script.js:286-288 | the line's opening tag carries the `console-error` class exactly when the entry is an error |

## Left out

- Threads and locks are not modelled. The same goes for `threading.Timer` and `threading.Event`, and for interleavings: a stop or an auto-stop is an event between steps, or a stop that lands during one attempt (`Interrupted`).
- `subprocess`, `pip`, `os.killpg`, signals and stdin writes are not modelled. Each launch attempt is an `Attempt` value, and the script and manifest checks are inputs to `RunEnv`.
- psutil sampling is not modelled. A sample is an input (`Sample`), and the CPU figure is a `real`. The `round(cpu, 1)` of `get_resources` is left out.
- Wall-clock reads are parameters (`Clock`, browser milliseconds).
- SQLite is not modelled. The rows are a sequence and the writes are functions of it. The other tables and `system_config` are left out.
- Flask routing, sessions, login, admin routes, uploads' filesystem writes and the Android wrapper are not modelled. The routes take the session user as a parameter.
- `rate_limit` is modelled as its window logic. How it wraps the start and stop routes is not composed with them.
- The spam reaction in `_add_log` (a recursive `_add_log` and `stop`) is left out: as written it re-enters itself while over the threshold. `check_spam_logs` and the 200-entry error window are modelled.
- The GET routes receive `bot_id` as text while the registry is keyed by integer ids, so a real lookup there can miss. The model uses one integer key throughout.
- `send_command` with a `None` command would raise on `None + '\n'`. SendCommand takes a string; SanitizeInput models the `None` case on its own.
- `install_requirements` handles only `CalledProcessError`. Other exceptions from pip are not modelled.
- After a launch failure, the auto-stop timer stays armed in the source. The model keeps `autoStop` as it was at that point and does not fire it later.
- The dashboard's fetch and polling, the RAM bar (an assumed 500 MB scale) and the DOM are left out. Only the values written into the page are modelled.
- detect_infinite_loop, is_safe_path, secure_filename and get_user_upload_dir are thin wrappers over regex and filesystem calls, and are left out.
- BotManager.RunLoop: the number of attempts bounds the loop. When the attempts run out while the loop would launch again, the run is reported unfinished, with no claim about later attempts.
- BotManager.AttemptStepAsWritten: models one of three orders between the reader thread and `stop`. (1) The reader gets past `wait()` and `returncode` (lines 134-135) before `stop` clears the handle at line 190. This is the usual order for a script that exits promptly on SIGTERM, because `stop` polls in `wait(timeout=5)` while the reader wakes on end of output. The run then takes the `break` at lines 153-155 and ends STOPPED, as `BotManager.AttemptStep` computes. (2) The handle is cleared before the reader calls `wait()`: ERROR with the `wait` text, the order this member models. (3) The reader is already blocked in `wait()` when the handle is cleared, which happens for a script that survives SIGTERM for 5 seconds, so that SIGKILL follows: ERROR with a text naming `returncode` (or `terminate`, if a line arrived after the flag was set). The model gives only order (2)'s text, and the status is ERROR in orders (2) and (3) only.
- Routes.RestartRoute: a RUNNING supervisor whose process has already exited (the wait before a restart) is stopped but not unwound. Its old loop goes on and can race with the new start; interleaving two loops is not modelled.
- The routes keep `stop` as written. The corrected `BotManager.StopAndHalt` is stated beside it but not threaded through the routes.
- BotManager.StartAsWritten: the monitor thread is taken to make its first test before the run thread sets RUNNING, which is always the order when `requirements.txt` exists, because pip runs first. The other order, a monitor that sees the script already launched, is not modelled.
- The three readings of a `Clock` are independent parameters. That they describe the same instant is not modelled.
- Routes.DownloadRoundTrip: entries whose timestamp or line contains a newline are excluded, because the plain-text format cannot tell their lines apart.
- Dashboard.TimerRoundTrip: stated below 100 hours only. Past that the hours field grows beyond two digits.

## Findings

| source | as written | input that shows it | evidently intended | confidence | as-written member | corrected member |
|---|---|---|---|---|---|---|
| bot_manager.py:134 | `stop` sets `self.process = None` (line 190) while the run loop still uses it. The loop's `self.process.wait()` then raises `AttributeError`, and the `except` branch (157-162) puts the bot in ERROR. | `start` of a `bot.py` that ignores SIGTERM, or takes more than 5 seconds to exit on it, then `stop` while it runs (`Interrupted` attempt) | a stop during a run ends STOPPED, as the stop-flag checks at 128 and 141 intend | not executed; medium, because it needs the handle cleared before the reader finishes with it; a script that honours SIGTERM usually ends STOPPED | BotManager.StopDuringRunAsWrittenErrors | BotManager.StopDuringRunStops |
| backend/app.py:193-199 | `restart_bot` stops the bot and sleeps two seconds. In that time the old run loop hits the `AttributeError` of the row above, writes ERROR to the row, and `start` then counts that row | FREE user (max_bots 1) whose only bot is RUNNING a `bot.py` that ignores SIGTERM, or takes more than 5 seconds to exit on it: `restart` answers "Bot limit reached (1) for your plan" | a restart of a running bot starts it again | not executed; medium, because it rests on the row above; a script that honours SIGTERM usually ends STOPPED and the restart succeeds | Routes.RestartOfRunningFreeBotAsWritten | Routes.RestartOfOnlyRunningBotSucceeds |
| bot_manager.py:175-177 | `stop` sets the stop flag only while `poll()` reports the child alive | a stop during the two-second wait after a crash, with restarts left | a stop request ends the loop | not executed; medium, because the stop must land in the two-second window | BotManager.StopDuringBackOffIsIgnored | BotManager.StopAndHaltDuringBackOffEndsRun |
| bot_manager.py:80-82 | `start` spawns `_monitor_resources` while the status is still the one it found. RUNNING is set only at line 103, in the run thread, after the requirements are installed, so the guard at line 214 fails at once and the monitor ends without a sample. It is never spawned again | any `start` of a bot with a `requirements.txt`, then a script using more CPU or RAM than the plan allows | the monitor samples the running script and stops it over a limit | not executed; medium, because without `requirements.txt` the order depends on thread scheduling | BotManager.MonitorStartedByStartNeverSamples | BotManager.MonitorAfterLaunchEnforcesLimits |
| plan_manager.py:55-59 | `can_start_bot` counts every non-STOPPED row of the user, including the row of the bot being started | FREE user (max_bots 1) whose only bot is in ERROR: `start` and `restart` answer "Bot limit reached (1) for your plan" | the bot being started does not count against its own owner's cap | not executed; medium | Plans.ErroredBotBlocksItself | Plans.AdmissionExceptWeaker |

Both halves are in the model:

- The run loop (`BotManager.RunLoop`) uses the corrected attempt step, `BotManager.AttemptStep`. `BotManager.AttemptStepAsWritten` models line 134 as written.
- `Routes.RestartRoute` takes the old loop's unwinding as a parameter. `BotManager.UnwindAsWritten` is the unwinding as written, and `BotManager.Unwind` the corrected one.
- `BotManager.StartAsWritten` is `start` with its monitor as written. `BotManager.MonitorThread` started on a launched bot is the corrected placement, and `Routes.ResourcesShowLatestReading` assumes it.
- `BotManager.StopAndHalt` is the corrected stop. The routes keep the stop as written (see Left out).
- The routes take the admission check as a parameter. `Routes.WrittenAdmission` is the check as written, and `Plans.CanStartBotExcept` is the corrected check. `Routes.StartOfErroredFreeBot` and `Routes.RestartOfErroredFreeBot` compare the two.
