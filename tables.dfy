/**
 * The two tables of the conversation store as values, and the queries the store runs on
 * them: the WHERE clauses it uses, ORDER BY timestamp DESC, LIMIT, COUNT(*) and
 * GROUP BY tab_name. Time is an integer clock in seconds supplied by the caller.
 */
module Tables {
  import opened Common

  /** A row of `conversations`. `temperature` is carried, never computed with. */
  datatype Row = Row(
    id: nat,
    tabName: string,
    timestamp: int,
    userMessage: string,
    assistantResponse: string,
    systemPrompt: Option<string>,
    model: Option<string>,
    temperature: Option<Float>,
    maxTokens: Option<int>,
    sessionId: string)

  /** A row of `sessions`, keyed by its session id. */
  datatype Session = Session(sessionId: string, createdAt: int, lastActivity: int, totalMessages: nat)

  /* ---------------------------------------------------------------- session ids */

  /** A local calendar time, as `datetime.now()` gives it. */
  datatype DateTime = DateTime(year: nat, month: nat, day: nat, hour: nat, minute: nat, second: nat)

  predicate ValidDateTime(t: DateTime)
  {
    1000 <= t.year <= 9999 && 1 <= t.month <= 12 && 1 <= t.day <= 31
    && t.hour < 24 && t.minute < 60 && t.second < 60
  }

  /** The default session id: "session_" and the time formatted `%Y%m%d_%H%M%S`. */
  function SessionIdAt(t: DateTime): string
    requires ValidDateTime(t)
  {
    assert Pow10(2) == 100 && Pow10(4) == 10000;
    "session_" + PaddedDigits(t.year, 4) + PaddedDigits(t.month, 2) + PaddedDigits(t.day, 2)
    + "_" + PaddedDigits(t.hour, 2) + PaddedDigits(t.minute, 2) + PaddedDigits(t.second, 2)
  }

  /** Reads a default session id back into the time it was made from. */
  function ParseSessionId(s: string): Option<DateTime>
  {
    if |s| == 23 && s[..8] == "session_" && s[16] == '_'
       && AllDigits(s[8..12]) && AllDigits(s[12..14]) && AllDigits(s[14..16])
       && AllDigits(s[17..19]) && AllDigits(s[19..21]) && AllDigits(s[21..23])
    then Some(DateTime(ReadDigits(s[8..12]), ReadDigits(s[12..14]), ReadDigits(s[14..16]),
                       ReadDigits(s[17..19]), ReadDigits(s[19..21]), ReadDigits(s[21..23])))
    else None
  }

  /** The session id names its time exactly: 23 characters, "session_", and the fields read back. */
  lemma SessionIdRoundTrip(t: DateTime)
    requires ValidDateTime(t)
    ensures |SessionIdAt(t)| == 23 && StartsWith(SessionIdAt(t), "session_")
    ensures ParseSessionId(SessionIdAt(t)) == Some(t)
  {
    assert Pow10(2) == 100 && Pow10(4) == 10000;
    var y, mo, d := PaddedDigits(t.year, 4), PaddedDigits(t.month, 2), PaddedDigits(t.day, 2);
    var h, mi, se := PaddedDigits(t.hour, 2), PaddedDigits(t.minute, 2), PaddedDigits(t.second, 2);
    IdFields("session_", y, mo, d, "_", h, mi, se);
  }

  /** Where each field sits in a text laid out like a session id. */
  lemma IdFields(p: string, y: string, mo: string, d: string, u: string, h: string, mi: string, se: string)
    requires |p| == 8 && |y| == 4 && |mo| == 2 && |d| == 2 && |u| == 1 && |h| == 2 && |mi| == 2 && |se| == 2
    ensures var s := p + y + mo + d + u + h + mi + se;
      |s| == 23 && s[..8] == p && s[8..12] == y && s[12..14] == mo && s[14..16] == d
      && s[16] == u[0] && s[17..19] == h && s[19..21] == mi && s[21..23] == se
  {
  }

  /** Two different times give two different default session ids. */
  lemma SessionIdInjective(t1: DateTime, t2: DateTime)
    requires ValidDateTime(t1) && ValidDateTime(t2) && SessionIdAt(t1) == SessionIdAt(t2)
    ensures t1 == t2
  {
    SessionIdRoundTrip(t1);
    SessionIdRoundTrip(t2);
  }

  /* ---------------------------------------------------------------- selection */

  /** The WHERE clauses the store uses. */
  datatype Criterion =
    | InTab(tab: string)                          // tab_name = ?
    | AllRows                                     // no WHERE clause
    | Mentions(query: string, inTab: Option<string>) // [tab_name = ? AND] (user_message LIKE %q% OR assistant_response LIKE %q%)
    | OlderThan(cutoff: int)                      // timestamp < cutoff
    | NewerThan(since: int)                       // timestamp > since
    | InSession(sessionId: string)                // session_id = ?
    | Not(inner: Criterion)

  /** Whether a row satisfies a criterion; LIKE '%q%' is a plain substring test here. */
  predicate Selects(c: Criterion, r: Row)
  {
    match c
    case InTab(tab) => r.tabName == tab
    case AllRows => true
    case Mentions(q, tab) =>
      (IsTruthy(tab) ==> r.tabName == tab.value)
      && (Contains(r.userMessage, q) || Contains(r.assistantResponse, q))
    case OlderThan(cutoff) => r.timestamp < cutoff
    case NewerThan(since) => r.timestamp > since
    case InSession(sid) => r.sessionId == sid
    case Not(inner) => !Selects(inner, r)
  }

  /** The rows that satisfy `c`, in table order. */
  function Select(rows: seq<Row>, c: Criterion): seq<Row>
    decreases |rows|
  {
    if rows == [] then []
    else
      var last := rows[|rows| - 1];
      Select(rows[..|rows| - 1], c) + if Selects(c, last) then [last] else []
  }

  /** Selection keeps each row that satisfies the criterion as often as it occurs, and no other. */
  lemma {:induction false} SelectMultiset(rows: seq<Row>, c: Criterion)
    ensures forall x :: multiset(Select(rows, c))[x] == if Selects(c, x) then multiset(rows)[x] else 0
  {
    if rows != [] {
      var init, last := rows[..|rows| - 1], rows[|rows| - 1];
      SelectMultiset(init, c);
      assert rows == init + [last];
    }
  }

  /** Selection keeps exactly the rows that satisfy the criterion, each as often as it occurs. */
  lemma SelectContents(rows: seq<Row>, c: Criterion)
    ensures forall x :: x in Select(rows, c) <==> x in rows && Selects(c, x)
    ensures forall x :: multiset(Select(rows, c))[x] == if Selects(c, x) then multiset(rows)[x] else 0
    ensures |Select(rows, c)| <= |rows|
  {
    SelectMultiset(rows, c);
    forall x
      ensures x in Select(rows, c) <==> x in rows && Selects(c, x)
    {
      assert x in Select(rows, c) <==> x in multiset(Select(rows, c));
      assert x in rows <==> x in multiset(rows);
    }
    SelectShorter(rows, c);
  }

  lemma {:induction false} SelectShorter(rows: seq<Row>, c: Criterion)
    ensures |Select(rows, c)| <= |rows|
  {
    if rows != [] {
      SelectShorter(rows[..|rows| - 1], c);
    }
  }

  /** Every row is either selected or rejected by a criterion, so the two counts add up. */
  lemma {:induction false} SelectSplit(rows: seq<Row>, c: Criterion)
    ensures |Select(rows, c)| + |Select(rows, Not(c))| == |rows|
  {
    if rows != [] {
      SelectSplit(rows[..|rows| - 1], c);
    }
  }

  /** Selecting from a subset of the rows never finds more rows of any kind. */
  lemma {:induction false} SelectAfterRemoval(rows: seq<Row>, c: Criterion, d: Criterion)
    ensures |Select(Select(rows, c), d)| <= |Select(rows, d)|
  {
    if rows != [] {
      var init, last := rows[..|rows| - 1], rows[|rows| - 1];
      SelectAfterRemoval(init, c, d);
      var kept := Select(init, c);
      assert |Select(rows, d)| == |Select(init, d)| + if Selects(d, last) then 1 else 0;
      if Selects(c, last) {
        assert Select(rows, c) == kept + [last];
        assert (kept + [last])[..|kept|] == kept;
        assert |Select(kept + [last], d)| == |Select(kept, d)| + if Selects(d, last) then 1 else 0;
      } else {
        assert Select(rows, c) == kept;
      }
    }
  }

  /** Selection distributes over concatenation of tables. */
  lemma {:induction false} SelectAppend(a: seq<Row>, b: seq<Row>, c: Criterion)
    ensures Select(a + b, c) == Select(a, c) + Select(b, c)
  {
    if b != [] {
      var init, last := b[..|b| - 1], b[|b| - 1];
      SelectAppend(a, init, c);
      assert (a + b)[..|a + b| - 1] == a + init;
      assert (a + b)[|a + b| - 1] == last;
      var tail := if Selects(c, last) then [last] else [];
      assert Select(a + b, c) == Select(a + init, c) + tail;
      assert Select(b, c) == Select(init, c) + tail;
      assert Select(a, c) + Select(init, c) + tail == Select(a, c) + (Select(init, c) + tail);
    } else {
      assert a + b == a;
    }
  }

  /** A criterion every row satisfies keeps the whole table. */
  lemma {:induction false} SelectAll(rows: seq<Row>, c: Criterion)
    requires forall i :: 0 <= i < |rows| ==> Selects(c, rows[i])
    ensures Select(rows, c) == rows
  {
    if rows != [] {
      var init, last := rows[..|rows| - 1], rows[|rows| - 1];
      forall i | 0 <= i < |init|
        ensures Selects(c, init[i])
      {
        assert init[i] == rows[i];
      }
      SelectAll(init, c);
      assert Selects(c, last);
      assert rows == init + [last];
    }
  }

  /** A criterion no row satisfies keeps nothing. */
  lemma {:induction false} SelectNone(rows: seq<Row>, c: Criterion)
    requires forall i :: 0 <= i < |rows| ==> !Selects(c, rows[i])
    ensures Select(rows, c) == []
  {
    if rows != [] {
      var init, last := rows[..|rows| - 1], rows[|rows| - 1];
      forall i | 0 <= i < |init|
        ensures !Selects(c, init[i])
      {
        assert init[i] == rows[i];
      }
      SelectNone(init, c);
      assert !Selects(c, last);
    }
  }

  /** Every row of an answer is a matching row of the table. */
  lemma AnswerRowsMatch(r: seq<Row>, rows: seq<Row>, c: Criterion, limit: int)
    requires IsAnswer(r, rows, c, limit)
    ensures forall x :: x in r ==> x in rows && Selects(c, x)
  {
    SelectContents(rows, c);
    forall x | x in r
      ensures x in Select(rows, c)
    {
      assert x in multiset(r);
    }
  }

  /** Ids strictly increase along the table. */
  predicate IdsIncreasing(rows: seq<Row>)
  {
    forall i, j :: 0 <= i < j < |rows| ==> rows[i].id < rows[j].id
  }

  /** A selection keeps the table order, so it keeps ids increasing. */
  lemma {:induction false} SelectKeepsIdOrder(rows: seq<Row>, c: Criterion)
    requires IdsIncreasing(rows)
    ensures IdsIncreasing(Select(rows, c))
  {
    if rows != [] {
      var init, last := rows[..|rows| - 1], rows[|rows| - 1];
      assert IdsIncreasing(init);
      SelectKeepsIdOrder(init, c);
      var s := Select(init, c);
      if Selects(c, last) {
        forall i | 0 <= i < |init|
          ensures init[i].id < last.id
        {
          assert init[i] == rows[i];
        }
        SelectedBelow(init, c, last.id);
        IncreasingSnoc(s, last);
      }
    }
  }

  /** Selection keeps an upper bound on the ids. */
  lemma SelectedBelow(rows: seq<Row>, c: Criterion, bound: int)
    requires forall i :: 0 <= i < |rows| ==> rows[i].id < bound
    ensures forall k :: 0 <= k < |Select(rows, c)| ==> Select(rows, c)[k].id < bound
  {
    var s := Select(rows, c);
    SelectContents(rows, c);
    forall k | 0 <= k < |s|
      ensures s[k].id < bound
    {
      assert s[k] in rows;
    }
  }

  lemma IncreasingSnoc(s: seq<Row>, last: Row)
    requires IdsIncreasing(s)
    requires forall k :: 0 <= k < |s| ==> s[k].id < last.id
    ensures IdsIncreasing(s + [last])
  {
    var t := s + [last];
    forall i, j | 0 <= i < j < |t|
      ensures t[i].id < t[j].id
    {
      if j < |s| {
        assert t[i] == s[i] && t[j] == s[j];
      }
    }
  }

  /* ---------------------------------------------------------------- ORDER BY timestamp DESC */

  /** Newest first: timestamps never increase along the sequence. */
  predicate IsNewestFirst(s: seq<Row>)
  {
    forall i, j :: 0 <= i < j < |s| ==> s[i].timestamp >= s[j].timestamp
  }

  /** Puts `r` into a newest-first sequence, ahead of the rows no newer than it. */
  function InsertNewest(r: Row, s: seq<Row>): seq<Row>
    decreases |s|
  {
    if s == [] || r.timestamp >= s[0].timestamp then [r] + s
    else [s[0]] + InsertNewest(r, s[1..])
  }

  /**
   * The rows ordered newest first. Rows with equal timestamps, on which ORDER BY is silent,
   * come out latest-inserted first.
   */
  function NewestFirst(s: seq<Row>): seq<Row>
    decreases |s|
  {
    if s == [] then [] else InsertNewest(s[|s| - 1], NewestFirst(s[..|s| - 1]))
  }

  /** Inserting adds exactly the one row. */
  lemma {:induction false} InsertNewestAdds(r: Row, s: seq<Row>)
    ensures multiset(InsertNewest(r, s)) == multiset(s) + multiset{r}
    ensures |InsertNewest(r, s)| == |s| + 1
  {
    if s != [] && r.timestamp < s[0].timestamp {
      InsertNewestAdds(r, s[1..]);
      assert s == [s[0]] + s[1..];
    }
  }

  lemma {:induction false} InsertNewestCorrect(r: Row, s: seq<Row>)
    requires IsNewestFirst(s)
    ensures IsNewestFirst(InsertNewest(r, s))
    ensures multiset(InsertNewest(r, s)) == multiset(s) + multiset{r}
    ensures |InsertNewest(r, s)| == |s| + 1
  {
    InsertNewestAdds(r, s);
    if s == [] || r.timestamp >= s[0].timestamp {
      forall k | 0 <= k < |s|
        ensures s[k].timestamp <= r.timestamp
      {
        if k > 0 {
          assert s[0].timestamp >= s[k].timestamp;
        }
      }
      NewestFirstCons(r, s);
    } else {
      var rest := s[1..];
      NewestFirstTail(s);
      InsertNewestCorrect(r, rest);
      var t := InsertNewest(r, rest);
      forall k | 0 <= k < |t|
        ensures t[k].timestamp <= s[0].timestamp
      {
        assert t[k] in multiset(t);
        if t[k] != r {
          assert t[k] in multiset(rest);
          var i :| 0 <= i < |rest| && rest[i] == t[k];
          assert s[i + 1] == t[k];
        }
      }
      NewestFirstCons(s[0], t);
    }
  }

  lemma NewestFirstTail(s: seq<Row>)
    requires IsNewestFirst(s) && s != []
    ensures IsNewestFirst(s[1..])
  {
    var rest := s[1..];
    forall i, j | 0 <= i < j < |rest|
      ensures rest[i].timestamp >= rest[j].timestamp
    {
      assert rest[i] == s[i + 1] && rest[j] == s[j + 1];
    }
  }

  lemma NewestFirstCons(x: Row, t: seq<Row>)
    requires IsNewestFirst(t)
    requires forall k :: 0 <= k < |t| ==> t[k].timestamp <= x.timestamp
    ensures IsNewestFirst([x] + t)
  {
    var u := [x] + t;
    forall i, j | 0 <= i < j < |u|
      ensures u[i].timestamp >= u[j].timestamp
    {
      assert u[j] == t[j - 1];
      if i > 0 {
        assert u[i] == t[i - 1];
      }
    }
  }

  /** Ordering newest first is a permutation that leaves timestamps non-increasing. */
  lemma {:induction false} NewestFirstCorrect(s: seq<Row>)
    ensures IsNewestFirst(NewestFirst(s))
    ensures multiset(NewestFirst(s)) == multiset(s)
    ensures |NewestFirst(s)| == |s|
  {
    if s != [] {
      var init, last := s[..|s| - 1], s[|s| - 1];
      NewestFirstCorrect(init);
      InsertNewestCorrect(last, NewestFirst(init));
      assert s == init + [last];
    }
  }

  /** LIMIT n: the first n rows; a negative limit means no limit. */
  function Limit(s: seq<Row>, n: int): seq<Row>
  {
    if 0 <= n < |s| then s[..n] else s
  }

  /** SELECT * ... WHERE c ORDER BY timestamp DESC LIMIT n. */
  function Query(rows: seq<Row>, c: Criterion, limit: int): seq<Row>
  {
    Limit(NewestFirst(Select(rows, c)), limit)
  }

  /**
   * `r` is a correct answer to the query: newest first, drawn from the matching rows (each
   * at most as often as it occurs), as many as the limit allows, and no matching row left
   * out is newer than a row returned.
   */
  predicate IsAnswer(r: seq<Row>, rows: seq<Row>, c: Criterion, limit: int)
  {
    var matching := Select(rows, c);
    IsNewestFirst(r)
    && multiset(r) <= multiset(matching)
    && |r| == (if 0 <= limit < |matching| then limit else |matching|)
    && (forall x :: x in matching && x !in r ==> forall y :: y in r ==> y.timestamp >= x.timestamp)
  }

  lemma QueryIsAnswer(rows: seq<Row>, c: Criterion, limit: int)
    ensures IsAnswer(Query(rows, c, limit), rows, c, limit)
  {
    var matching := Select(rows, c);
    var sorted := NewestFirst(matching);
    NewestFirstCorrect(matching);
    LimitKeepsNewest(sorted, limit);
    forall x | x in matching
      ensures x in sorted
    {
      assert x in multiset(matching);
    }
  }

  /** LIMIT on a newest-first sequence keeps as many rows as allowed, and the newest ones. */
  lemma LimitKeepsNewest(sorted: seq<Row>, limit: int)
    requires IsNewestFirst(sorted)
    ensures var r := Limit(sorted, limit);
      IsNewestFirst(r) && multiset(r) <= multiset(sorted)
      && |r| == (if 0 <= limit < |sorted| then limit else |sorted|)
      && forall x :: x in sorted && x !in r ==> forall y :: y in r ==> y.timestamp >= x.timestamp
  {
    var r := Limit(sorted, limit);
    var n := |r|;
    assert r == sorted[..n];
    assert sorted == r + sorted[n..];
    PrefixIsNewest(sorted, n);
  }

  /** In a newest-first sequence, no row after position `n` is newer than a row before it. */
  lemma PrefixIsNewest(s: seq<Row>, n: nat)
    requires IsNewestFirst(s) && n <= |s|
    ensures forall x, y :: x in s[n..] && y in s[..n] ==> y.timestamp >= x.timestamp
  {
    forall x, y | x in s[n..] && y in s[..n]
      ensures y.timestamp >= x.timestamp
    {
      var j :| 0 <= j < |s| - n && s[n..][j] == x;
      var i :| 0 <= i < n && s[..n][i] == y;
      assert s[i] == y && s[n + j] == x;
    }
  }

  /** An answer without a limit holds every matching row, as often as it occurs. */
  lemma UnlimitedAnswerIsComplete(r: seq<Row>, rows: seq<Row>, c: Criterion)
    requires IsAnswer(r, rows, c, -1)
    ensures multiset(r) == multiset(Select(rows, c))
  {
    var m := Select(rows, c);
    assert |multiset(r)| == |multiset(m)|;
    var missing := multiset(m) - multiset(r);
    assert multiset(m) == multiset(r) + missing;
    assert |missing| == 0;
  }

  /**
   * A row saved with a timestamp no older than any other row of its tab heads any answer to
   * that tab's history by timestamp; when it is strictly the newest of its tab it is the first
   * row itself. Among rows of equal timestamp ORDER BY promises no order, so nothing more is
   * claimed then.
   */
  lemma LatestSavedComesFirst(rows: seq<Row>, row: Row, limit: int, h: seq<Row>)
    requires forall i :: 0 <= i < |rows| && rows[i].tabName == row.tabName ==> rows[i].timestamp <= row.timestamp
    requires limit != 0
    requires IsAnswer(h, rows + [row], InTab(row.tabName), limit)
    ensures |h| >= 1 && h[0].timestamp == row.timestamp
    ensures (forall i :: 0 <= i < |rows| && rows[i].tabName == row.tabName ==> rows[i].timestamp < row.timestamp)
      ==> h[0] == row
  {
    var all, c := rows + [row], InTab(row.tabName);
    AnswerRowsMatch(h, all, c, limit);
    SelectContents(all, c);
    assert row in Select(all, c);
    assert |h| >= 1;
    var first := h[0];
    assert first in all && first.tabName == row.tabName;
    if first != row {
      var i :| 0 <= i < |all| && all[i] == first;
      assert i < |rows| && rows[i] == first;
    }
    if row in h {
      var k :| 0 <= k < |h| && h[k] == row;
      assert k == 0 || h[0].timestamp >= h[k].timestamp;
    } else {
      assert row in Select(all, c) && row !in h;
    }
  }

  /** Any answer to a search for a text that only one row contains is exactly that row. */
  lemma SearchFindsOnlyHolder(rows: seq<Row>, x: Row, q: string, found: seq<Row>)
    requires multiset(rows)[x] == 1 && Contains(x.assistantResponse, q)
    requires forall y :: y in rows && y != x ==> !Contains(y.userMessage, q) && !Contains(y.assistantResponse, q)
    requires IsAnswer(found, rows, Mentions(q, None), -1)
    ensures found == [x]
  {
    var c := Mentions(q, None);
    SelectContents(rows, c);
    var m := Select(rows, c);
    assert multiset(m) == multiset{x} by {
      forall y ensures multiset(m)[y] == multiset{x}[y] {
        if y != x && y in rows {
          assert !Selects(c, y);
        }
      }
    }
    UnlimitedAnswerIsComplete(found, rows, c);
    assert multiset(found) == multiset{x};
    assert |found| == 1 && found[0] in multiset(found);
  }

  /* ---------------------------------------------------------------- counts */

  /** `SELECT tab_name, COUNT(*) ... GROUP BY tab_name`: one entry per tab, in order of first appearance. */
  function TabCounts(rows: seq<Row>): seq<(string, nat)>
    decreases |rows|
  {
    if rows == [] then [] else AddTab(TabCounts(rows[..|rows| - 1]), rows[|rows| - 1].tabName)
  }

  /** Counts one more row of `tab`. */
  function AddTab(counts: seq<(string, nat)>, tab: string): seq<(string, nat)>
    decreases |counts|
  {
    if counts == [] then [(tab, 1)]
    else if counts[0].0 == tab then [(tab, counts[0].1 + 1)] + counts[1..]
    else [counts[0]] + AddTab(counts[1..], tab)
  }

  /** The count recorded for `tab`, 0 when it has no entry. */
  function CountOf(counts: seq<(string, nat)>, tab: string): nat
    decreases |counts|
  {
    if counts == [] then 0 else if counts[0].0 == tab then counts[0].1 else CountOf(counts[1..], tab)
  }

  function SumCounts(counts: seq<(string, nat)>): nat
    decreases |counts|
  {
    if counts == [] then 0 else counts[0].1 + SumCounts(counts[1..])
  }

  /** The tabs that have an entry. */
  function Tabs(counts: seq<(string, nat)>): set<string>
    decreases |counts|
  {
    if counts == [] then {} else {counts[0].0} + Tabs(counts[1..])
  }

  /** No tab has two entries. */
  predicate DistinctTabs(counts: seq<(string, nat)>)
    decreases |counts|
  {
    counts == [] || (counts[0].0 !in Tabs(counts[1..]) && DistinctTabs(counts[1..]))
  }

  /** The tabs of the rows. */
  function RowTabs(rows: seq<Row>): set<string>
  {
    set r | r in rows :: r.tabName
  }

  lemma {:induction false} AddTabCorrect(counts: seq<(string, nat)>, tab: string)
    ensures Tabs(AddTab(counts, tab)) == Tabs(counts) + {tab}
    ensures DistinctTabs(counts) ==> DistinctTabs(AddTab(counts, tab))
    ensures SumCounts(AddTab(counts, tab)) == SumCounts(counts) + 1
    ensures forall t :: CountOf(AddTab(counts, tab), t) == CountOf(counts, t) + if t == tab then 1 else 0
  {
    if counts != [] && counts[0].0 != tab {
      AddTabCorrect(counts[1..], tab);
    }
  }

  /**
   * The per-tab counts: one entry per tab that has rows, each holding the number of rows of
   * that tab, summing to the number of rows.
   */
  lemma {:induction false} TabCountsCorrect(rows: seq<Row>)
    ensures DistinctTabs(TabCounts(rows))
    ensures Tabs(TabCounts(rows)) == RowTabs(rows)
    ensures SumCounts(TabCounts(rows)) == |rows|
    ensures forall t :: CountOf(TabCounts(rows), t) == |Select(rows, InTab(t))|
  {
    if rows != [] {
      var init, last := rows[..|rows| - 1], rows[|rows| - 1];
      TabCountsCorrect(init);
      AddTabCorrect(TabCounts(init), last.tabName);
      assert rows == init + [last];
      assert RowTabs(rows) == RowTabs(init) + {last.tabName};
    }
  }
}
