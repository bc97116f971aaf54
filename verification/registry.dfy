/**
 * The global registry `user_bots[user_id][bot_id]` of supervisors and its three
 * accessors in bot_manager.py. The lock around them is left out: each accessor
 * is one atomic step.
 */
module Registry {
  import opened Wrappers
  import opened Db
  import Plans
  import opened BotManager

  type Registry = map<int, map<int, Bot>>

  /** `get_bot_manager`: the supervisor under `(userId, botId)`, if both keys are present. */
  function Get(reg: Registry, userId: int, botId: int): (r: Option<Bot>)
    ensures r.Some? <==> userId in reg && botId in reg[userId]
    ensures r.Some? ==> r.value == reg[userId][botId]
  {
    if userId in reg && botId in reg[userId] then Some(reg[userId][botId]) else None
  }

  /** Store `bot` under `(userId, botId)`, creating the user's inner map when needed. */
  function Put(reg: Registry, userId: int, botId: int, bot: Bot): (r: Registry)
    ensures Get(r, userId, botId) == Some(bot)
    ensures forall u, b :: (u != userId || b != botId) ==> Get(r, u, b) == Get(reg, u, b)
    ensures r.Keys == reg.Keys + {userId}
  {
    var inner := if userId in reg then reg[userId] else map[];
    reg[userId := inner[botId := bot]]
  }

  /**
   * `create_bot_manager`: a fresh supervisor under `(userId, botId)`, replacing
   * whatever was there, with the restart budget of the owner's plan. `row` is the
   * bot's row status at that moment.
   */
  function Create(reg: Registry, userId: int, botId: int, username: string, botName: string,
                  limits: Plans.Limits, row: Status): (r: Registry)
    ensures Get(r, userId, botId) == Some(NewBot(userId, botId, username, botName, limits, row))
    ensures forall u, b :: (u != userId || b != botId) ==> Get(r, u, b) == Get(reg, u, b)
  {
    Put(reg, userId, botId, NewBot(userId, botId, username, botName, limits, row))
  }

  /** Creating over an existing entry discards it: the old supervisor, logs and all, is gone. */
  lemma CreateOverwrites(reg: Registry, userId: int, botId: int, username: string, botName: string,
                         limits: Plans.Limits, row: Status)
    requires Get(reg, userId, botId).Some?
    ensures var r := Create(reg, userId, botId, username, botName, limits, row);
            && Get(r, userId, botId).value.logs == []
            && Get(r, userId, botId).value.status == STOPPED
  {
  }

  /** The registry after `delete_bot_manager` and the supervisor it removed, if any. */
  datatype Removal = Removal(registry: Registry, removed: Option<Bot>)

  /** `del user_bots[userId][botId]`: the inner map loses one key and stays, even when empty. */
  function Remove(reg: Registry, userId: int, botId: int): (r: Registry)
    requires userId in reg
    ensures Get(r, userId, botId).None?
    ensures forall u, b :: (u != userId || b != botId) ==> Get(r, u, b) == Get(reg, u, b)
    ensures r.Keys == reg.Keys
  {
    reg[userId := reg[userId] - {botId}]
  }

  /**
   * `delete_bot_manager`: a RUNNING supervisor is stopped first, then its key is
   * removed. Absent keys leave the registry as it was.
   */
  function Delete(reg: Registry, userId: int, botId: int, at: Clock): (d: Removal)
    ensures Get(reg, userId, botId).None? ==> d == Removal(reg, None)
    ensures Get(reg, userId, botId).Some? ==> d.registry == Remove(reg, userId, botId)
    ensures d.removed.Some? <==> Get(reg, userId, botId).Some?
    ensures d.removed.Some? ==> d.removed.value.status != RUNNING
    ensures d.removed.Some? && reg[userId][botId].status == RUNNING
            ==> d.removed.value == Stop(reg[userId][botId], at)
    ensures d.removed.Some? && reg[userId][botId].status != RUNNING
            ==> d.removed.value == reg[userId][botId]
  {
    if userId in reg && botId in reg[userId] then
      var bot := reg[userId][botId];
      Removal(Remove(reg, userId, botId), Some(if bot.status == RUNNING then Stop(bot, at) else bot))
    else Removal(reg, None)
  }

  /** After Delete the key is gone and every other key maps as before. */
  lemma DeleteRemovesOnlyItsKey(reg: Registry, userId: int, botId: int, at: Clock)
    ensures var d := Delete(reg, userId, botId, at);
            && Get(d.registry, userId, botId).None?
            && d.registry.Keys == reg.Keys
            && forall u, b :: (u != userId || b != botId) ==> Get(d.registry, u, b) == Get(reg, u, b)
  {
  }

  /** Get after Create finds the new supervisor; Delete after Create removes it again. */
  lemma CreateThenDelete(reg: Registry, userId: int, botId: int, username: string, botName: string,
                         limits: Plans.Limits, row: Status, at: Clock)
    ensures var created := Create(reg, userId, botId, username, botName, limits, row);
            var d := Delete(created, userId, botId, at);
            && d.removed == Some(NewBot(userId, botId, username, botName, limits, row))
            && Get(d.registry, userId, botId).None?
            && forall u, b :: (u != userId || b != botId) ==> Get(d.registry, u, b) == Get(reg, u, b)
  {
  }
}
