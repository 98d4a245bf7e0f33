/**
 * The conversation store: the `conversations` and `sessions` tables held in memory and
 * changed by the methods of `Store`, one per method of the database manager. Each method
 * does what its SQL statements do to the two tables; the current time (`CURRENT_TIMESTAMP`
 * and `datetime('now')`) is an integer clock in seconds passed by the caller, and
 * `datetime.now()` for the default session id is a calendar time passed the same way.
 */
module ConversationStore {
  import opened Common
  import opened Tables

  /** One day in seconds: the `-1 day` of recent activity and the unit of `days` in cleanup. */
  const Day: int := 86400

  /** The default `limit` of the all-tabs query, which export uses. */
  const AllLimit: int := 100

  /** What the engine does with the two statements of `save_message`: both succeed, or one raises. */
  datatype Fault =
    | NoFault
    | InsertFails(error: string)
    | SessionUpdateFails(error: string)

  /** The counts of `get_database_status`. */
  datatype Status = Status(totalConversations: nat, conversationsByTab: seq<(string, nat)>, recentActivity: nat)

  /** What `export_conversations` returns: the rows themselves, or the rows pandas renders as CSV. */
  datatype Export = JsonExport(rows: seq<Row>) | CsvExport(rows: seq<Row>)

  const UnsupportedFormat: string := "Unsupported format. Use 'json' or 'csv'."

  /**
   * INSERT OR REPLACE INTO sessions: the session's row is replaced by a fresh one, created and
   * last active now, whose count is the rows of that session plus one.
   */
  function Upserted(sessions: map<string, Session>, rows: seq<Row>, sid: string, now: int): map<string, Session>
  {
    sessions[sid := Session(sid, now, now, |Select(rows, InSession(sid))| + 1)]
  }

  /** Appending a row of one session leaves every other session's row count as it was. */
  lemma OtherSessionsUnchanged(rows: seq<Row>, row: Row, sid: string)
    requires row.sessionId != sid
    ensures Select(rows + [row], InSession(sid)) == Select(rows, InSession(sid))
  {
    assert (rows + [row])[..|rows|] == rows;
  }

  /**
   * The session count is off by one: after `n` saves into a session that had no rows, the
   * session has `n` rows, so the `total_messages` the last save wrote is `n + 1`.
   */
  lemma SavesInOneSession(rows: seq<Row>, saved: seq<Row>, sid: string)
    requires forall x :: x in rows ==> x.sessionId != sid
    requires forall x :: x in saved ==> x.sessionId == sid
    ensures |Select(rows + saved, InSession(sid))| == |saved|
  {
    SelectAppend(rows, saved, InSession(sid));
    SelectNone(rows, InSession(sid));
    SelectAll(saved, InSession(sid));
  }

  /** Ids are positive, strictly increasing and below the counter. */
  ghost predicate IdsBelow(rows: seq<Row>, nextId: nat)
  {
    nextId >= 1 && IdsIncreasing(rows) && forall i :: 0 <= i < |rows| ==> 1 <= rows[i].id < nextId
  }

  /** Every row's session has a session row. */
  ghost predicate SessionsCover(rows: seq<Row>, sessions: map<string, Session>)
  {
    forall i :: 0 <= i < |rows| ==> rows[i].sessionId in sessions
  }

  /**
   * Each session row sits under its own id, and its `total_messages` is above the session's
   * row count (a save sets it one above; a delete only lowers the row count).
   */
  ghost predicate CountsAbove(rows: seq<Row>, sessions: map<string, Session>)
  {
    forall sid :: sid in sessions ==>
      sessions[sid].sessionId == sid && sessions[sid].totalMessages > |Select(rows, InSession(sid))|
  }

  ghost predicate Consistent(rows: seq<Row>, sessions: map<string, Session>, nextId: nat)
  {
    IdsBelow(rows, nextId) && SessionsCover(rows, sessions) && CountsAbove(rows, sessions)
  }

  /** Deleting rows keeps the tables consistent: ids stay ordered, counts only fall. */
  lemma DeleteKeepsConsistent(rows: seq<Row>, sessions: map<string, Session>, nextId: nat, keep: Criterion)
    requires Consistent(rows, sessions, nextId)
    ensures Consistent(Select(rows, keep), sessions, nextId)
  {
    DeleteKeepsIds(rows, nextId, keep);
    DeleteKeepsCover(rows, sessions, keep);
    DeleteKeepsCounts(rows, sessions, keep);
  }

  lemma DeleteKeepsIds(rows: seq<Row>, nextId: nat, keep: Criterion)
    requires IdsBelow(rows, nextId)
    ensures IdsBelow(Select(rows, keep), nextId)
  {
    var kept := Select(rows, keep);
    SelectKeepsIdOrder(rows, keep);
    SelectContents(rows, keep);
    forall i | 0 <= i < |kept|
      ensures 1 <= kept[i].id < nextId
    {
      assert kept[i] in rows;
    }
  }

  lemma DeleteKeepsCover(rows: seq<Row>, sessions: map<string, Session>, keep: Criterion)
    requires SessionsCover(rows, sessions)
    ensures SessionsCover(Select(rows, keep), sessions)
  {
    var kept := Select(rows, keep);
    SelectContents(rows, keep);
    forall i | 0 <= i < |kept|
      ensures kept[i].sessionId in sessions
    {
      assert kept[i] in rows;
    }
  }

  lemma DeleteKeepsCounts(rows: seq<Row>, sessions: map<string, Session>, keep: Criterion)
    requires CountsAbove(rows, sessions)
    ensures CountsAbove(Select(rows, keep), sessions)
  {
    forall sid | sid in sessions
      ensures |Select(Select(rows, keep), InSession(sid))| <= |Select(rows, InSession(sid))|
    {
      SelectAfterRemoval(rows, keep, InSession(sid));
    }
  }

  /**
   * A save keeps the tables consistent: the new row's id is above every other, its session
   * now has a row, and every other session's count is unchanged.
   */
  lemma SaveKeepsConsistent(rows: seq<Row>, sessions: map<string, Session>, nextId: nat, row: Row, now: int)
    requires Consistent(rows, sessions, nextId) && row.id == nextId
    ensures forall x :: x in rows ==> x.id < row.id
    ensures Consistent(rows + [row], Upserted(sessions, rows + [row], row.sessionId, now), nextId + 1)
  {
    var all := rows + [row];
    var updated := Upserted(sessions, all, row.sessionId, now);
    forall k | 0 <= k < |rows|
      ensures rows[k].id < row.id
    {
    }
    IncreasingSnoc(rows, row);
    assert IdsBelow(all, nextId + 1);
    assert SessionsCover(all, updated);
    forall s | s in updated
      ensures updated[s].sessionId == s && updated[s].totalMessages > |Select(all, InSession(s))|
    {
      if s != row.sessionId {
        OtherSessionsUnchanged(rows, row, s);
      }
    }
  }

  /** The SQLite database: the two tables and the AUTOINCREMENT counter of `conversations`. */
  class Store {
    var rows: seq<Row>
    var sessions: map<string, Session>
    var nextId: nat

    /**
     * Ids are positive, strictly increasing and below the counter; every row's session has a
     * session row under its own id; and no session's `total_messages` is below its row count
     * (saves set it one above, deletes only lower the row count).
     */
    ghost predicate Valid()
      reads this
    {
      Consistent(rows, sessions, nextId)
    }

    /** A new database: both tables empty, the first id 1. */
    constructor ()
      ensures Valid()
      ensures rows == [] && sessions == map[] && nextId == 1
    {
      rows := [];
      sessions := map[];
      nextId := 1;
    }

    /**
     * `save_message`: inserts the row, then replaces its session's row, and commits both; if
     * either statement raises, both are rolled back and the error is raised again.
     */
    method SaveMessage(tabName: string, userMessage: string, assistantResponse: string,
                       systemPrompt: Option<string>, model: Option<string>, temperature: Option<Float>,
                       maxTokens: Option<int>, sessionId: Option<string>, now: int, clock: DateTime,
                       fault: Fault)
      returns (r: Result<nat>)
      requires Valid()
      requires sessionId.None? ==> ValidDateTime(clock)
      modifies this
      ensures Valid()
      ensures r.Ok? <==> fault.NoFault?
      ensures r.Err? ==> r.error == fault.error
      ensures r.Err? ==> rows == old(rows) && sessions == old(sessions) && nextId == old(nextId)
      ensures r.Ok? ==>
        var sid := if sessionId.Some? then sessionId.value else SessionIdAt(clock);
        && r.value == old(nextId)
        && (forall x :: x in old(rows) ==> x.id < r.value)
        && rows == old(rows) + [Row(r.value, tabName, now, userMessage, assistantResponse, systemPrompt,
                                    model, temperature, maxTokens, sid)]
        && nextId == old(nextId) + 1
        && sessions == Upserted(old(sessions), rows, sid, now)
        && sessions[sid].totalMessages == |Select(rows, InSession(sid))| + 1
    {
      var sid := if sessionId.Some? then sessionId.value else SessionIdAt(clock);
      var row := Row(nextId, tabName, now, userMessage, assistantResponse, systemPrompt,
                     model, temperature, maxTokens, sid);
      // INSERT INTO conversations, not yet committed
      var pendingRows := rows + [row];
      if fault.InsertFails? {
        return Err(fault.error);
      }
      // INSERT OR REPLACE INTO sessions on the same connection, which already sees the new row
      var pendingSessions := Upserted(sessions, pendingRows, sid, now);
      if fault.SessionUpdateFails? {
        return Err(fault.error);
      }
      SaveKeepsConsistent(rows, sessions, nextId, row, now);
      rows, sessions, nextId := pendingRows, pendingSessions, nextId + 1;
      r := Ok(row.id);
    }

    /** `update_session_activity` on its own connection: replaces the session's row and commits. */
    method UpdateSessionActivity(sid: string, now: int)
      requires Valid()
      modifies this
      ensures Valid()
      ensures rows == old(rows) && nextId == old(nextId)
      ensures sessions == Upserted(old(sessions), rows, sid, now)
    {
      sessions := Upserted(sessions, rows, sid, now);
    }

    /** `get_conversation_history`: the tab's rows, newest first, at most `limit` (negative: all). */
    method GetConversationHistory(tab: string, limit: int) returns (history: seq<Row>)
      ensures IsAnswer(history, rows, InTab(tab), limit)
      ensures forall x :: x in history ==> x in rows && x.tabName == tab
      ensures limit >= 0 ==> |history| <= limit
    {
      history := Query(rows, InTab(tab), limit);
      QueryIsAnswer(rows, InTab(tab), limit);
      AnswerRowsMatch(history, rows, InTab(tab), limit);
    }

    /** `get_all_conversations`: every tab's rows, newest first, at most `limit` (negative: all). */
    method GetAllConversations(limit: int) returns (all: seq<Row>)
      ensures IsAnswer(all, rows, AllRows, limit)
      ensures limit >= 0 ==> |all| <= limit
      ensures limit < 0 || |rows| <= limit ==> multiset(all) == multiset(rows)
    {
      all := Query(rows, AllRows, limit);
      QueryIsAnswer(rows, AllRows, limit);
      SelectAll(rows, AllRows);
      if limit < 0 || |rows| <= limit {
        assert IsAnswer(all, rows, AllRows, -1);
        UnlimitedAnswerIsComplete(all, rows, AllRows);
      }
    }

    /**
     * `search_conversations`: every row whose message or response contains `query`, newest
     * first; restricted to `tab` only when `tab` is given and non-empty.
     */
    method SearchConversations(query: string, tab: Option<string>) returns (found: seq<Row>)
      ensures IsAnswer(found, rows, Mentions(query, tab), -1)
      ensures multiset(found) == multiset(Select(rows, Mentions(query, tab)))
      ensures forall x :: x in found <==>
        x in rows && (Contains(x.userMessage, query) || Contains(x.assistantResponse, query))
        && (IsTruthy(tab) ==> x.tabName == tab.value)
    {
      found := Query(rows, Mentions(query, tab), -1);
      QueryIsAnswer(rows, Mentions(query, tab), -1);
      UnlimitedAnswerIsComplete(found, rows, Mentions(query, tab));
      SelectContents(rows, Mentions(query, tab));
      forall x
        ensures x in found <==> x in Select(rows, Mentions(query, tab))
      {
        assert x in found <==> x in multiset(found);
      }
    }

    /** `clear_conversation`: deletes the tab's rows; sessions are left as they are. */
    method ClearConversation(tab: string)
      requires Valid()
      modifies this
      ensures Valid()
      ensures rows == Select(old(rows), Not(InTab(tab)))
      ensures forall x :: x in rows <==> x in old(rows) && x.tabName != tab
      ensures sessions == old(sessions) && nextId == old(nextId)
    {
      Remove(Not(InTab(tab)));
      forall x
        ensures x in rows <==> x in old(rows) && x.tabName != tab
      {
        assert Selects(Not(InTab(tab)), x) <==> x.tabName != tab;
      }
    }

    /** `clear_all_conversations`: empties both tables; AUTOINCREMENT never reuses an id. */
    method ClearAllConversations()
      requires Valid()
      modifies this
      ensures Valid()
      ensures rows == [] && sessions == map[]
      ensures nextId == old(nextId)
    {
      rows := [];
      sessions := map[];
    }

    /**
     * `cleanup_old_conversations`: deletes exactly the rows stamped before `now - days` and
     * returns how many it deleted.
     */
    method CleanupOldConversations(days: nat, now: int) returns (deleted: nat)
      requires Valid()
      modifies this
      ensures Valid()
      ensures rows == Select(old(rows), Not(OlderThan(now - days * Day)))
      ensures forall x :: x in rows <==> x in old(rows) && x.timestamp >= now - days * Day
      ensures deleted == |Select(old(rows), OlderThan(now - days * Day))|
      ensures deleted == |old(rows)| - |rows|
      ensures sessions == old(sessions) && nextId == old(nextId)
    {
      var cutoff := now - days * Day;
      deleted := |Select(rows, OlderThan(cutoff))|;
      SelectSplit(rows, OlderThan(cutoff));
      Remove(Not(OlderThan(cutoff)));
      forall x
        ensures x in rows <==> x in old(rows) && x.timestamp >= cutoff
      {
        assert Selects(Not(OlderThan(cutoff)), x) <==> x.timestamp >= cutoff;
      }
    }

    /** Keeps the rows `keep` selects: a DELETE of the others. */
    method Remove(keep: Criterion)
      requires Valid()
      modifies this
      ensures Valid()
      ensures rows == Select(old(rows), keep)
      ensures forall x :: x in rows <==> x in old(rows) && Selects(keep, x)
      ensures sessions == old(sessions) && nextId == old(nextId)
    {
      DeleteKeepsConsistent(rows, sessions, nextId, keep);
      SelectContents(rows, keep);
      rows := Select(rows, keep);
    }

    /**
     * `get_database_status`, counts only: the number of rows, one count per tab (each the
     * tab's row count, summing to the total), and the rows stamped within the last day.
     */
    method GetDatabaseStatus(now: int) returns (status: Status)
      ensures status.totalConversations == |rows|
      ensures SumCounts(status.conversationsByTab) == status.totalConversations
      ensures DistinctTabs(status.conversationsByTab)
      ensures Tabs(status.conversationsByTab) == RowTabs(rows)
      ensures forall t :: CountOf(status.conversationsByTab, t) == |Select(rows, InTab(t))|
      ensures status.recentActivity == |Select(rows, NewerThan(now - Day))|
      ensures status.recentActivity <= status.totalConversations
    {
      TabCountsCorrect(rows);
      SelectContents(rows, NewerThan(now - Day));
      status := Status(|rows|, TabCounts(rows), |Select(rows, NewerThan(now - Day))|);
    }

    /**
     * `export_conversations`: the 100 newest rows for "json" and "csv"; any other format is
     * a ValueError.
     */
    method ExportConversations(format: string) returns (r: Result<Export>)
      ensures r.Ok? <==> format == "json" || format == "csv"
      ensures r.Err? ==> r.error == UnsupportedFormat
      ensures format == "json" ==> r.Ok? && r.value.JsonExport?
      ensures format == "csv" ==> r.Ok? && r.value.CsvExport?
      ensures r.Ok? ==> IsAnswer(r.value.rows, rows, AllRows, AllLimit) && |r.value.rows| <= AllLimit
    {
      var conversations := GetAllConversations(AllLimit);
      if format == "json" {
        r := Ok(JsonExport(conversations));
      } else if format == "csv" {
        r := Ok(CsvExport(conversations));
      } else {
        r := Err(UnsupportedFormat);
      }
    }
  }

  /** Export holds every row only while the table has at most 100 rows; beyond that the oldest are cut. */
  lemma ExportIsCapped(rows: seq<Row>, exported: seq<Row>)
    requires |rows| > AllLimit && IsAnswer(exported, rows, AllRows, AllLimit)
    ensures |exported| == AllLimit < |rows|
  {
    SelectAll(rows, AllRows);
  }
}
