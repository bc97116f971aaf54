/**
 * Subscription plans (plan_manager.py): the constant plan table, lookup with a
 * FREE fallback, the admission check before a start, and plan upgrades.
 * The users table is modelled as a map from user id to the stored plan name.
 */
module Plans {
  import opened Text
  import opened Db

  datatype Limits = Limits(
    name: string,
    maxBots: nat,
    maxRuntimeHours: nat,
    maxRestarts: nat,
    maxLogLines: nat,
    maxCpu: nat,
    maxRamMb: nat)

  const Free: Limits := Limits("Free", 1, 24, 3, 500, 50, 200)
  const Pro: Limits := Limits("Pro", 3, 72, 10, 5000, 80, 500)
  const Ultra: Limits := Limits("Ultra", 10, 8760, 9999, 50000, 95, 1000)

  /** `PLANS`, keyed by the plan names stored in `users.plan`. */
  const PlanTable: map<string, Limits> := map["FREE" := Free, "PRO" := Pro, "ULTRA" := Ultra]

  /** `users.plan` per user id. */
  type Users = map<int, string>

  /** Every numeric limit of `a` is at most the same limit of `b`. */
  predicate AtMost(a: Limits, b: Limits) {
    && a.maxBots <= b.maxBots
    && a.maxRuntimeHours <= b.maxRuntimeHours
    && a.maxRestarts <= b.maxRestarts
    && a.maxLogLines <= b.maxLogLines
    && a.maxCpu <= b.maxCpu
    && a.maxRamMb <= b.maxRamMb
  }

  predicate AllPositive(l: Limits) {
    l.maxBots > 0 && l.maxRuntimeHours > 0 && l.maxRestarts > 0
    && l.maxLogLines > 0 && l.maxCpu > 0 && l.maxRamMb > 0
  }

  /** Higher plans never grant less, and no plan grants zero of anything. */
  lemma PlansOrdered()
    ensures AtMost(Free, Pro) && AtMost(Pro, Ultra)
    ensures forall p :: p in PlanTable ==> AllPositive(PlanTable[p])
    ensures forall p :: p in PlanTable ==> AtMost(Free, PlanTable[p]) && AtMost(PlanTable[p], Ultra)
  {
  }

  /** `get_plan_limits`: `PLANS.get(plan_name, PLANS['FREE'])`. */
  function GetPlanLimits(planName: string): (l: Limits)
    ensures l in PlanTable.Values
    ensures planName in PlanTable ==> l == PlanTable[planName]
    ensures l.name == "Free" <==> planName != "PRO" && planName != "ULTRA"
  {
    if planName in PlanTable then PlanTable[planName]
    else assert PlanTable["FREE"] == Free; Free
  }

  /** `get_user_plan`: the stored plan, or 'FREE' when the user row is missing. */
  function GetUserPlan(users: Users, userId: int): (p: string)
    ensures userId !in users ==> p == "FREE"
    ensures userId in users ==> p == users[userId]
  {
    if userId in users then users[userId] else "FREE"
  }

  /** `get_user_limits`: the limits of the user's plan. */
  function GetUserLimits(users: Users, userId: int): (l: Limits)
    ensures l in PlanTable.Values
    ensures AtMost(Free, l)
  {
    GetPlanLimits(GetUserPlan(users, userId))
  }

  /** A user without a row, or with an unknown plan name, gets the FREE limits. */
  lemma UnknownUserGetsFree(users: Users, userId: int)
    requires userId !in users || users[userId] !in PlanTable
    ensures GetUserLimits(users, userId) == Free
  {
  }

  /** Seconds until the auto-stop timer fires: `max_runtime_hours * 3600`. */
  function AutoStopSeconds(l: Limits): (s: nat)
    ensures s / 3600 == l.maxRuntimeHours && s % 3600 == 0
  {
    l.maxRuntimeHours * 3600
  }

  /** One day on FREE, three days on PRO, a year on ULTRA. */
  lemma AutoStopDurations()
    ensures AutoStopSeconds(Free) == 86400
    ensures AutoStopSeconds(Pro) == 259200
    ensures AutoStopSeconds(Ultra) == 31536000
  {
  }

  /** The `(allowed, message)` pair returned by `can_start_bot`. */
  datatype Admission = Admission(allowed: bool, message: string)

  function LimitMessage(maxBots: nat): string {
    "Bot limit reached (" + NatToString(maxBots) + ") for your plan"
  }

  /**
   * `can_start_bot` as written: counts every non-STOPPED row of the user,
   * including the row of the bot that is about to be started.
   */
  function CanStartBot(users: Users, rows: seq<BotRow>, userId: int): (a: Admission)
    ensures a.allowed <==> CountActive(rows, userId) < GetUserLimits(users, userId).maxBots
    ensures a.allowed ==> a.message == "OK"
    ensures !a.allowed ==> a.message == LimitMessage(GetUserLimits(users, userId).maxBots)
  {
    var limits := GetUserLimits(users, userId);
    if CountActive(rows, userId) >= limits.maxBots then Admission(false, LimitMessage(limits.maxBots))
    else Admission(true, "OK")
  }

  /**
   * The admission check as evidently intended: the bot being started does not
   * count against its own owner's cap, so a bot left in ERROR can be started again.
   */
  function CanStartBotExcept(users: Users, rows: seq<BotRow>, userId: int, botId: int): (a: Admission)
    ensures a.allowed <==> CountOtherActive(rows, userId, botId) < GetUserLimits(users, userId).maxBots
    ensures a.allowed ==> a.message == "OK"
    ensures !a.allowed ==> a.message == LimitMessage(GetUserLimits(users, userId).maxBots)
  {
    var limits := GetUserLimits(users, userId);
    if CountOtherActive(rows, userId, botId) >= limits.maxBots then Admission(false, LimitMessage(limits.maxBots))
    else Admission(true, "OK")
  }

  /** The corrected check never refuses what the written one allows. */
  lemma AdmissionExceptWeaker(users: Users, rows: seq<BotRow>, userId: int, botId: int)
    ensures CanStartBot(users, rows, userId).allowed ==> CanStartBotExcept(users, rows, userId, botId).allowed
  {
    CountsOrdered(rows, userId, botId);
  }

  /**
   * As written, a FREE user whose only bot is in ERROR cannot start it again:
   * the bot's own row fills the cap of one. The corrected check admits it.
   */
  lemma ErroredBotBlocksItself(users: Users, userId: int, botId: int, name: string)
    requires GetUserLimits(users, userId) == Free
    ensures var rows := [BotRow(botId, userId, name, ERROR)];
            && !CanStartBot(users, rows, userId).allowed
            && CanStartBot(users, rows, userId).message == "Bot limit reached (1) for your plan"
            && CanStartBotExcept(users, rows, userId, botId).allowed
  {
    var rows := [BotRow(botId, userId, name, ERROR)];
    CountActiveSingle(rows[0]);
    assert NatToString(1) == "1";
  }

  /** The refusal message names the plan's cap, and different caps give different messages. */
  lemma LimitMessageNamesCap(m: nat, n: nat)
    requires LimitMessage(m) == LimitMessage(n)
    ensures m == n
  {
    var pre := "Bot limit reached (";
    var post := ") for your plan";
    assert LimitMessage(m)[|pre|..|LimitMessage(m)| - |post|] == NatToString(m);
    assert LimitMessage(n)[|pre|..|LimitMessage(n)| - |post|] == NatToString(n);
    NatToStringInjective(m, n);
  }

  /** The `(ok, message)` of `upgrade_user_plan` together with the users table afterwards. */
  datatype Upgrade = Upgrade(ok: bool, message: string, users: Users)

  /**
   * `upgrade_user_plan`: an unknown plan name is refused without a write; otherwise
   * `UPDATE users SET plan = ?` runs, which changes nothing when the user has no row.
   */
  function UpgradeUserPlan(users: Users, userId: int, newPlan: string): (u: Upgrade)
    ensures u.ok <==> newPlan in PlanTable
    ensures !u.ok ==> u.message == "Invalid plan" && u.users == users
    ensures u.ok ==> u.message == "Plan upgraded"
    ensures u.ok && userId in users ==> GetUserLimits(u.users, userId) == PlanTable[newPlan]
    ensures u.users.Keys == users.Keys
    ensures forall v :: v in users && v != userId ==> u.users[v] == users[v]
  {
    if newPlan !in PlanTable then Upgrade(false, "Invalid plan", users)
    else if userId in users then Upgrade(true, "Plan upgraded", users[userId := newPlan])
    else Upgrade(true, "Plan upgraded", users)
  }
}
