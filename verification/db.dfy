/**
 * The rows of the `bots` table that the core reads: owner, name and the persisted
 * status column (`status TEXT DEFAULT 'STOPPED'`, models.py).
 */
module Db {
  import opened Wrappers

  /** The three lifecycle statuses; the bots table only ever receives these. */
  datatype Status = STOPPED | RUNNING | ERROR

  datatype BotRow = BotRow(id: int, userId: int, name: string, status: Status)

  /** `SELECT COUNT(*) FROM bots WHERE user_id = ? AND status != "STOPPED"`. */
  function CountActive(rows: seq<BotRow>, userId: int): (n: nat)
    ensures n <= |rows|
    decreases |rows|
  {
    if rows == [] then 0
    else (if rows[0].userId == userId && rows[0].status != STOPPED then 1 else 0)
         + CountActive(rows[1..], userId)
  }

  /** `SELECT COUNT(*) FROM bots WHERE user_id = ?`. */
  function CountAll(rows: seq<BotRow>, userId: int): (n: nat)
    ensures n <= |rows|
    decreases |rows|
  {
    if rows == [] then 0
    else (if rows[0].userId == userId then 1 else 0) + CountAll(rows[1..], userId)
  }

  /** Count of the user's non-STOPPED rows other than the row `botId`. */
  function CountOtherActive(rows: seq<BotRow>, userId: int, botId: int): (n: nat)
    ensures n <= |rows|
    decreases |rows|
  {
    if rows == [] then 0
    else (if rows[0].userId == userId && rows[0].status != STOPPED && rows[0].id != botId then 1 else 0)
         + CountOtherActive(rows[1..], userId, botId)
  }

  /** Active bots are among all bots; leaving one row out counts no more. */
  lemma {:induction false} CountsOrdered(rows: seq<BotRow>, userId: int, botId: int)
    ensures CountOtherActive(rows, userId, botId) <= CountActive(rows, userId) <= CountAll(rows, userId)
    decreases |rows|
  {
    if rows != [] {
      CountsOrdered(rows[1..], userId, botId);
    }
  }

  /** Counting distributes over concatenation. */
  lemma {:induction false} CountActiveAppend(a: seq<BotRow>, b: seq<BotRow>, userId: int)
    ensures CountActive(a + b, userId) == CountActive(a, userId) + CountActive(b, userId)
    decreases |a|
  {
    if a == [] {
      assert a + b == b;
    } else {
      assert (a + b)[1..] == a[1..] + b;
      CountActiveAppend(a[1..], b, userId);
    }
  }

  lemma {:induction false} CountAllAppend(a: seq<BotRow>, b: seq<BotRow>, userId: int)
    ensures CountAll(a + b, userId) == CountAll(a, userId) + CountAll(b, userId)
    decreases |a|
  {
    if a == [] {
      assert a + b == b;
    } else {
      assert (a + b)[1..] == a[1..] + b;
      CountAllAppend(a[1..], b, userId);
    }
  }

  /** A user's only row contributes 1 to the active count exactly when it is not STOPPED. */
  lemma CountActiveSingle(row: BotRow)
    ensures CountActive([row], row.userId) == if row.status == STOPPED then 0 else 1
    ensures CountOtherActive([row], row.userId, row.id) == 0
  {
    assert [row][1..] == [];
  }

  /** `SELECT ... FROM bots WHERE id = ?`, `fetchone()`: the first row with that id. */
  function FindRow(rows: seq<BotRow>, id: int): (r: Option<BotRow>)
    ensures r.None? <==> forall k :: 0 <= k < |rows| ==> rows[k].id != id
    ensures r.Some? ==> r.value.id == id && r.value in rows
    decreases |rows|
  {
    if rows == [] then None
    else if rows[0].id == id then Some(rows[0])
    else FindRow(rows[1..], id)
  }

  /** `UPDATE bots SET status = ? WHERE id = ?`: every row with that id, and no other, gets the status. */
  function SetStatus(rows: seq<BotRow>, id: int, status: Status): (r: seq<BotRow>)
    ensures |r| == |rows|
    ensures forall k :: 0 <= k < |rows| ==> r[k] == if rows[k].id == id then rows[k].(status := status) else rows[k]
  {
    seq(|rows|, k requires 0 <= k < |rows| => if rows[k].id == id then rows[k].(status := status) else rows[k])
  }

  /** After the update, the lookup by id finds the same row with the new status. */
  lemma {:induction false} FindRowSetStatus(rows: seq<BotRow>, id: int, status: Status)
    requires FindRow(rows, id).Some?
    ensures FindRow(SetStatus(rows, id, status), id) == Some(FindRow(rows, id).value.(status := status))
    decreases |rows|
  {
    var r := SetStatus(rows, id, status);
    if rows[0].id != id {
      FindRowSetStatus(rows[1..], id, status);
      assert r[1..] == SetStatus(rows[1..], id, status);
    }
  }

  /** Setting a row to STOPPED takes it out of its owner's active count and out of no other count. */
  lemma {:induction false} StoppingFreesASlot(rows: seq<BotRow>, userId: int, id: int)
    ensures CountActive(SetStatus(rows, id, STOPPED), userId) == CountOtherActive(rows, userId, id)
    ensures CountAll(SetStatus(rows, id, STOPPED), userId) == CountAll(rows, userId)
    decreases |rows|
  {
    if rows != [] {
      StoppingFreesASlot(rows[1..], userId, id);
      assert SetStatus(rows, id, STOPPED)[1..] == SetStatus(rows[1..], id, STOPPED);
    }
  }
}
