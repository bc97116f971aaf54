/**
 * The dashboard logic of frontend/script.js that turns the routes' replies into
 * what the user sees: the uptime timer, the enabled state of the controls, the
 * colour class of the CPU bar and the console lines. The DOM is reduced to
 * the values written into it; the one-second interval becomes explicit ticks.
 */
module Dashboard {
  import opened Wrappers
  import opened Text
  import opened Db
  import Plans
  import Utils
  import BotManager
  import Registry
  import Routes

  // ---------------------------------------------------------------------------
  // JavaScript integer arithmetic
  // ---------------------------------------------------------------------------

  /** JavaScript `Math.trunc(a / b)` for a positive divisor: rounds toward zero. */
  function TruncDiv(a: int, b: int): (q: int)
    requires b > 0
    ensures a >= 0 ==> 0 <= b * q <= a
    ensures a <= 0 ==> a <= b * q <= 0
  {
    if a >= 0 then a / b else -((-a) / b)
  }

  /** JavaScript `a % b` for a positive divisor: truncating, so the remainder takes the sign of `a`. */
  function JsRem(a: int, b: int): (r: int)
    requires b > 0
    ensures a == b * TruncDiv(a, b) + r
    ensures -b < r < b
    ensures a >= 0 ==> r >= 0
    ensures a <= 0 ==> r <= 0
  {
    if a >= 0 then a % b else -((-a) % b)
  }

  /** `Math.floor(a / b)` for a positive divisor. */
  function FloorDiv(a: int, b: int): (q: int)
    requires b > 0
    ensures b * q <= a < b * (q + 1)
  {
    a / b
  }

  // ---------------------------------------------------------------------------
  // The uptime timer
  // ---------------------------------------------------------------------------

  /** `Math.floor((now - botStartTime) / 1000)`: whole seconds since the start, in milliseconds in. */
  function ElapsedSeconds(nowMs: int, startMs: int): (d: int)
    ensures 1000 * d <= nowMs - startMs < 1000 * (d + 1)
  {
    FloorDiv(nowMs - startMs, 1000)
  }

  datatype Hms = Hms(hours: int, minutes: int, seconds: int)

  /** The hours, minutes and seconds the timer computes from the elapsed seconds. */
  function TimerFields(diff: int): Hms {
    Hms(FloorDiv(diff, 3600), FloorDiv(JsRem(diff, 3600), 60), JsRem(diff, 60))
  }

  /** For a non-negative elapsed time the fields are its mixed-radix decomposition. */
  lemma TimerFieldsDecompose(diff: int)
    requires diff >= 0
    ensures var t := TimerFields(diff);
            && 0 <= t.hours && 0 <= t.minutes < 60 && 0 <= t.seconds < 60
            && (diff < 360000 ==> t.hours < 100)
            && t.hours * 3600 + t.minutes * 60 + t.seconds == diff
  {
    var t := TimerFields(diff);
    assert JsRem(diff, 3600) == diff % 3600;
    assert JsRem(diff, 60) == diff % 60;
    assert diff % 3600 == t.minutes * 60 + diff % 60;
  }

  /** `String(n).padStart(2, '0')`. */
  function Field(n: int): (r: string)
    ensures |r| >= 2
  {
    PadStart(IntToString(n), 2, '0')
  }

  /** The text written into the timer element. */
  function TimerText(diff: int): string {
    var t := TimerFields(diff);
    Field(t.hours) + ":" + Field(t.minutes) + ":" + Field(t.seconds)
  }

  /** Below one hundred a field is exactly its two decimal digits. */
  lemma FieldTwoDigits(n: int)
    requires 0 <= n < 100
    ensures Field(n) == [DigitChar(n / 10), DigitChar(n % 10)]
  {
    var digits := NatToString(n);
    assert IntToString(n) == digits;
    if n < 10 {
      assert digits == [DigitChar(n)];
      assert n / 10 == 0 && n % 10 == n;
      assert PadStart(digits, 2, '0') == ['0'] + digits;
    } else {
      assert NatToString(n / 10) == [DigitChar(n / 10)];
      assert digits == [DigitChar(n / 10), DigitChar(n % 10)];
    }
  }

  /** Read `HH:MM:SS` back into seconds; None for any other shape. */
  function ReadTimer(t: string): (r: Option<int>)
    ensures r.Some? ==> r.value >= 0 && |t| == 8
  {
    if |t| == 8 && t[2] == ':' && t[5] == ':'
       && IsDigit(t[0]) && IsDigit(t[1]) && IsDigit(t[3]) && IsDigit(t[4]) && IsDigit(t[6]) && IsDigit(t[7])
    then Some(3600 * (10 * DigitValue(t[0]) + DigitValue(t[1]))
              + 60 * (10 * DigitValue(t[3]) + DigitValue(t[4]))
              + 10 * DigitValue(t[6]) + DigitValue(t[7]))
    else None
  }

  /** The six digits of two-digit fields, with the separators. */
  function Digits(t: Hms): string
    requires 0 <= t.hours < 100 && 0 <= t.minutes < 100 && 0 <= t.seconds < 100
  {
    [DigitChar(t.hours / 10), DigitChar(t.hours % 10), ':',
     DigitChar(t.minutes / 10), DigitChar(t.minutes % 10), ':',
     DigitChar(t.seconds / 10), DigitChar(t.seconds % 10)]
  }

  /** Three two-character fields joined by colons. */
  lemma JoinFields(a: string, b: string, c: string)
    requires |a| == 2 && |b| == 2 && |c| == 2
    ensures a + ":" + b + ":" + c == [a[0], a[1], ':', b[0], b[1], ':', c[0], c[1]]
  {
  }

  lemma FieldsText(t: Hms)
    requires 0 <= t.hours < 100 && 0 <= t.minutes < 100 && 0 <= t.seconds < 100
    ensures Field(t.hours) + ":" + Field(t.minutes) + ":" + Field(t.seconds) == Digits(t)
  {
    FieldTwoDigits(t.hours);
    FieldTwoDigits(t.minutes);
    FieldTwoDigits(t.seconds);
    JoinFields(Field(t.hours), Field(t.minutes), Field(t.seconds));
  }

  /** Two digits written by FieldTwoDigits read back as the field. */
  lemma ReadField(n: int)
    requires 0 <= n < 100
    ensures 10 * DigitValue(DigitChar(n / 10)) + DigitValue(DigitChar(n % 10)) == n
  {
    DigitValueOfDigitChar(n / 10);
    DigitValueOfDigitChar(n % 10);
  }

  lemma ReadDigits(t: Hms, total: int)
    requires 0 <= t.hours < 100 && 0 <= t.minutes < 100 && 0 <= t.seconds < 100
    requires total == t.hours * 3600 + t.minutes * 60 + t.seconds
    ensures ReadTimer(Digits(t)) == Some(total)
  {
    ReadField(t.hours);
    ReadField(t.minutes);
    ReadField(t.seconds);
  }

  /** Under one hundred hours the timer shows eight characters that read back as the elapsed seconds. */
  lemma TimerTextOfFields(diff: int)
    ensures var t := TimerFields(diff);
            TimerText(diff) == Field(t.hours) + ":" + Field(t.minutes) + ":" + Field(t.seconds)
  {
  }

  /** Text made of three fields below one hundred reads back as their seconds. */
  lemma ReadFieldsText(t: Hms, text: string, total: int)
    requires 0 <= t.hours < 100 && 0 <= t.minutes < 100 && 0 <= t.seconds < 100
    requires text == Field(t.hours) + ":" + Field(t.minutes) + ":" + Field(t.seconds)
    requires total == t.hours * 3600 + t.minutes * 60 + t.seconds
    ensures |text| == 8
    ensures ReadTimer(text) == Some(total)
  {
    FieldsText(t);
    ReadDigits(t, total);
  }

  lemma TimerRoundTrip(diff: int)
    requires 0 <= diff < 360000
    ensures |TimerText(diff)| == 8
    ensures ReadTimer(TimerText(diff)) == Some(diff)
  {
    var t := TimerFields(diff);
    TimerFieldsDecompose(diff);
    TimerTextOfFields(diff);
    ReadFieldsText(t, TimerText(diff), diff);
  }

  /**
   * A start time later than the browser's clock gives a negative difference, and
   * the truncating remainder shows every field negative: one second early reads
   * "-1:-1:-1".
   */
  lemma NegativeElapsedShowsMinus()
    ensures TimerFields(-1) == Hms(-1, -1, -1)
    ensures TimerText(-1) == "-1:-1:-1"
  {
    assert IntToString(-1) == "-1";
  }

  /** The warning class goes on from the 23rd hour: one hour before the FREE plan's auto-stop. */
  predicate Warns(diff: int) {
    TimerFields(diff).hours >= 23
  }

  lemma WarningHourBeforeFreeLimit(diff: int)
    requires diff >= 0
    ensures Warns(diff) <==> diff >= Plans.AutoStopSeconds(Plans.Free) - 3600
  {
    Plans.AutoStopDurations();
  }

  /** What the timer element and the interval hold. */
  datatype TimerView = TimerView(armed: bool, text: string, warning: bool, seconds: int)

  /** `stopTimer`: interval cleared, "00:00:00", warning class removed, counter zeroed. */
  function StopTimer(v: TimerView): (r: TimerView)
    ensures !r.armed && !r.warning && r.seconds == 0
    ensures r.text == TimerText(r.seconds)
  {
    TimerView(false, "00:00:00", false, 0)
  }

  /** `startTimer`: clears first, then arms the interval only when a start time is known. */
  function StartTimer(v: TimerView, startMs: Option<int>): (r: TimerView)
    ensures r.armed <==> startMs.Some?
    ensures !r.warning && r.seconds == 0 && r.text == TimerText(r.seconds)
  {
    var cleared := StopTimer(v);
    if startMs.None? then cleared else cleared.(armed := true)
  }

  /** One firing of the interval at browser time `nowMs`. The warning class is only ever added. */
  function Tick(v: TimerView, nowMs: int, startMs: int): (r: TimerView)
    ensures r.seconds == ElapsedSeconds(nowMs, startMs)
    ensures r.text == TimerText(r.seconds)
    ensures r.warning <==> v.warning || Warns(r.seconds)
    ensures r.armed == v.armed
  {
    var diff := ElapsedSeconds(nowMs, startMs);
    TimerView(v.armed, TimerText(diff), v.warning || Warns(diff), diff)
  }

  /** Successive firings at the browser times `nows`. */
  function Ticks(v: TimerView, nows: seq<int>, startMs: int): (r: TimerView)
    ensures r.armed == v.armed
    ensures nows == [] ==> r == v
    decreases |nows|
  {
    if nows == [] then v else Ticks(Tick(v, nows[0], startMs), nows[1..], startMs)
  }

  /** Some tick at the browser times `nows` reaches hour 23. */
  predicate SomeTickWarns(nows: seq<int>, startMs: int) {
    exists k :: 0 <= k < |nows| && Warns(ElapsedSeconds(nows[k], startMs))
  }

  lemma SomeTickWarnsCons(nows: seq<int>, startMs: int)
    requires nows != []
    ensures SomeTickWarns(nows, startMs)
            <==> Warns(ElapsedSeconds(nows[0], startMs)) || SomeTickWarns(nows[1..], startMs)
  {
    if SomeTickWarns(nows, startMs) && !Warns(ElapsedSeconds(nows[0], startMs)) {
      var k :| 0 <= k < |nows| && Warns(ElapsedSeconds(nows[k], startMs));
      assert nows[1..][k - 1] == nows[k];
    }
    if SomeTickWarns(nows[1..], startMs) {
      var k :| 0 <= k < |nows[1..]| && Warns(ElapsedSeconds(nows[1..][k], startMs));
      assert nows[k + 1] == nows[1..][k];
    }
  }

  /**
   * Once shown, the warning stays until the timer is stopped: after a run of
   * ticks it is on exactly when it was on before or some tick reached hour 23,
   * even if the clock later reads earlier.
   */
  lemma {:induction false} WarningIsSticky(v: TimerView, nows: seq<int>, startMs: int)
    ensures Ticks(v, nows, startMs).warning <==> v.warning || SomeTickWarns(nows, startMs)
    decreases |nows|
  {
    if nows != [] {
      var v1 := Tick(v, nows[0], startMs);
      WarningIsSticky(v1, nows[1..], startMs);
      SomeTickWarnsCons(nows, startMs);
    }
  }

  // ---------------------------------------------------------------------------
  // Controls
  // ---------------------------------------------------------------------------

  /** Which controls are enabled. */
  datatype Controls = Controls(start: bool, stop: bool, restart: bool, command: bool, send: bool)

  /** `updateStatus`: RUNNING enables everything but start; any other status enables only start. */
  function Buttons(status: Status): (r: Controls)
    ensures r.start <==> status != RUNNING
    ensures r.stop == r.restart == r.command == r.send == !r.start
  {
    if status == RUNNING then Controls(false, true, true, true, true)
    else Controls(true, false, false, false, false)
  }

  /**
   * The page enables the buttons from the status `/bot/status` reports, which is
   * the row's status column, not the supervisor's. While the two agree, the start
   * button is enabled exactly when `start_bot_route` would not answer "Bot
   * already running". They part right after an accepted start: the row says
   * RUNNING, so the page offers stop and restart, while the supervisor stays at
   * its old status until its run loop launches the script.
   */
  lemma StartButtonMatchesStart(w: Routes.World, userId: int, username: string, botId: int,
                                admit: (Plans.Users, seq<BotRow>, int, int) -> Plans.Admission)
    requires Routes.OwnsRow(w.rows, userId, botId)
    requires Routes.ManagerOrNew(w, userId, username, botId).botId == botId
    ensures var shown := Routes.BotStatus(w, userId, botId).status;
            shown == Routes.ManagerOrNew(w, userId, username, botId).status ==>
              var ok := Routes.StartRoute(w, false, userId, username, botId, admit).reply.success;
              (ok <==> Buttons(shown).start && admit(w.users, w.rows, userId, botId).allowed)
    ensures var out := Routes.StartRoute(w, false, userId, username, botId, admit);
            out.reply.success ==>
              && Buttons(Routes.BotStatus(out.world, userId, botId).status) == Controls(false, true, true, true, true)
              && Registry.Get(out.world.registry, userId, botId).Some?
              && Registry.Get(out.world.registry, userId, botId).value.status != RUNNING
  {
    var k :| 0 <= k < |w.rows| && w.rows[k].id == botId && w.rows[k].userId == userId;
    assert FindRow(w.rows, botId).Some?;
    FindRowSetStatus(w.rows, botId, RUNNING);
  }

  // ---------------------------------------------------------------------------
  // The CPU bar
  // ---------------------------------------------------------------------------

  const Danger: string := "resource-fill-danger"
  const Warning: string := "resource-fill-warning"

  /** The class of the CPU bar for a percentage: danger above 80, warning above 50. */
  function CpuClass(percent: real): (r: string)
    ensures |r| >= 14 && r[..14] == "resource-fill "
  {
    "resource-fill " + (if percent > 80.0 then Danger else if percent > 50.0 then Warning else "")
  }

  /** The colour level a bar class shows: 0 plain, 1 warning, 2 danger. */
  function Level(cls: string): nat {
    if cls == "resource-fill " + Danger then 2
    else if cls == "resource-fill " + Warning then 1
    else 0
  }

  /** A higher reading never shows a calmer colour, and the thresholds are strict. */
  lemma CpuClassMonotone(a: real, b: real)
    requires a <= b
    ensures Level(CpuClass(a)) <= Level(CpuClass(b))
    ensures Level(CpuClass(b)) == 2 <==> b > 80.0
    ensures Level(CpuClass(b)) >= 1 <==> b > 50.0
  {
  }

  // ---------------------------------------------------------------------------
  // Console
  // ---------------------------------------------------------------------------

  /** `updateLogs`: one `<div>` per entry, with the stored text inserted as HTML. */
  function ConsoleLine(e: BotManager.LogEntry): (r: string)
    ensures |r| >= 36 && r[|r| - 6..] == "</div>"
  {
    ConsoleHtml(e.timestamp, e.Text(), e.isError)
  }

  /** The markup of one console line around an already escaped text. */
  function ConsoleHtml(timestamp: string, text: string, isError: bool): (r: string)
    ensures |r| >= 36 && r[|r| - 6..] == "</div>"
  {
    ConsoleOpen(isError) + timestamp + "] " + text + "</div>"
  }

  function ConsoleOpen(isError: bool): string {
    "<div class=\"console-line " + (if isError then "console-error" else "") + "\">["
  }

  /** The stored text carries no angle bracket or quote, so a log line cannot open or close a tag. */
  lemma ConsoleTextInert(e: BotManager.LogEntry)
    ensures forall i :: 0 <= i < |e.Text()| ==> e.Text()[i] != '<' && e.Text()[i] != '>'
                                                && e.Text()[i] != '"' && e.Text()[i] != '\''
  {
    Utils.EscapeIsPerCharacter(e.line);
  }

  lemma PrefixOfConcat(p: string, x: string)
    ensures (p + x)[..|p|] == p
  {
  }

  lemma ConsoleHtmlOpens(timestamp: string, text: string, isError: bool)
    ensures ConsoleHtml(timestamp, text, isError)[..|ConsoleOpen(isError)|] == ConsoleOpen(isError)
  {
    var rest := timestamp + "] " + text + "</div>";
    assert ConsoleHtml(timestamp, text, isError) == ConsoleOpen(isError) + rest;
    PrefixOfConcat(ConsoleOpen(isError), rest);
  }

  /** The opening tag carries the error class on exactly the error entries. */
  lemma ConsoleLineClass(e: BotManager.LogEntry)
    ensures e.isError ==> ConsoleLine(e)[..41] == "<div class=\"console-line console-error\">["
    ensures !e.isError ==> ConsoleLine(e)[..28] == "<div class=\"console-line \">["
  {
    ConsoleHtmlOpens(e.timestamp, e.Text(), e.isError);
    ConsoleOpenText();
  }

  lemma ConsoleOpenText()
    ensures ConsoleOpen(true) == "<div class=\"console-line console-error\">["
    ensures ConsoleOpen(false) == "<div class=\"console-line \">["
  {
  }
}
