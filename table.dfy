/** The `shulker` table: rows `(user_id, username, fecha, total)`, the SQL
    statements the bot runs on it, and the invariants its writes keep. */
module Table {
  import opened Wrappers
  import opened Users

  datatype Row = Row(userId: UserId, username: string, fecha: string, total: int)

  predicate HasKey(r: Row, user: UserId, day: string) {
    r.userId == user && r.fecha == day
  }

  /** At most one row per (user_id, fecha). The schema declares no UNIQUE
      constraint, so only the bot's own writes keep this. */
  ghost predicate UniqueKeys(rows: seq<Row>) {
    forall i, j | 0 <= i < j < |rows| :: !HasKey(rows[j], rows[i].userId, rows[i].fecha)
  }

  ghost predicate AllPositive(rows: seq<Row>) {
    forall i | 0 <= i < |rows| :: rows[i].total > 0
  }

  /** The first row, in storage order, whose key is (user, day): the row `fetchone` returns. */
  function Find(rows: seq<Row>, user: UserId, day: string): (r: Option<nat>)
    ensures r.Some? ==> r.value < |rows| && HasKey(rows[r.value], user, day)
    ensures r.Some? ==> forall j | 0 <= j < r.value :: !HasKey(rows[j], user, day)
    ensures r.None? <==> forall j | 0 <= j < |rows| :: !HasKey(rows[j], user, day)
  {
    if rows == [] then None
    else if HasKey(rows[0], user, day) then Some(0)
    else match Find(rows[1..], user, day)
      case None => None
      case Some(k) => Some(k + 1)
  }

  /** The stored total for (user, day), if a row exists. */
  function TotalOf(rows: seq<Row>, user: UserId, day: string): Option<int> {
    match Find(rows, user, day)
    case None => None
    case Some(i) => Some(rows[i].total)
  }

  /** The user's tally for the day: the stored total, or 0 before the first submission. */
  function Tally(rows: seq<Row>, user: UserId, day: string): int {
    match TotalOf(rows, user, day)
    case None => 0
    case Some(t) => t
  }

  /** `UPDATE shulker SET total = ? WHERE user_id = ? AND fecha = ?`. */
  function WithTotal(rows: seq<Row>, user: UserId, day: string, total: int): seq<Row> {
    seq(|rows|, i requires 0 <= i < |rows| =>
      if HasKey(rows[i], user, day) then rows[i].(total := total) else rows[i])
  }

  /** The table after one accepted submission of `delta` by `user` on `day`:
      the existing total is raised, or a first row is appended. */
  function Upserted(rows: seq<Row>, user: UserId, name: string, day: string, delta: int): seq<Row> {
    match Find(rows, user, day)
    case Some(i) => WithTotal(rows, user, day, rows[i].total + delta)
    case None => rows + [Row(user, name, day, delta)]
  }

  /** The table after several accepted submissions by the same user on the same day. */
  function UpsertedAll(rows: seq<Row>, user: UserId, name: string, day: string, deltas: seq<int>): seq<Row>
    decreases |deltas|
  {
    if deltas == [] then rows
    else UpsertedAll(Upserted(rows, user, name, day, deltas[0]), user, name, day, deltas[1..])
  }

  function Sum(xs: seq<int>): int {
    if xs == [] then 0 else xs[0] + Sum(xs[1..])
  }

  lemma {:induction false} FindAppend(rows: seq<Row>, r: Row, user: UserId, day: string)
    requires Find(rows, user, day).None? && HasKey(r, user, day)
    ensures Find(rows + [r], user, day) == Some(|rows|)
  {
    var s := rows + [r];
    assert HasKey(s[|rows|], user, day);
  }

  /** An upsert keeps the table's invariants: one row per key, every total positive. */
  lemma UpsertKeepsInvariant(rows: seq<Row>, user: UserId, name: string, day: string, delta: int)
    requires UniqueKeys(rows) && AllPositive(rows) && delta > 0
    ensures UniqueKeys(Upserted(rows, user, name, day, delta))
    ensures AllPositive(Upserted(rows, user, name, day, delta))
  {
    var s := Upserted(rows, user, name, day, delta);
    match Find(rows, user, day)
    case Some(k) =>
      forall i, j | 0 <= i < j < |s|
        ensures !HasKey(s[j], s[i].userId, s[i].fecha)
      {
        assert s[i].userId == rows[i].userId && s[i].fecha == rows[i].fecha;
        assert s[j].userId == rows[j].userId && s[j].fecha == rows[j].fecha;
      }
    case None =>
      forall i, j | 0 <= i < j < |s|
        ensures !HasKey(s[j], s[i].userId, s[i].fecha)
      {
        if j == |rows| {
          assert !HasKey(rows[i], user, day);
        }
      }
  }

  /** The submitter's total for the day becomes the old total (0 if none) plus
      delta, so with delta > 0 it strictly increases. */
  lemma UpsertTotal(rows: seq<Row>, user: UserId, name: string, day: string, delta: int)
    ensures TotalOf(Upserted(rows, user, name, day, delta), user, day).Some?
    ensures Tally(Upserted(rows, user, name, day, delta), user, day) == Tally(rows, user, day) + delta
  {
    var s := Upserted(rows, user, name, day, delta);
    match Find(rows, user, day)
    case Some(k) =>
      var f := Find(s, user, day);
      assert HasKey(s[k], user, day);
      assert f == Some(k) by {
        forall j | 0 <= j < |s| && HasKey(s[j], user, day) ensures k <= j {
          assert HasKey(rows[j], user, day);
        }
      }
    case None =>
      FindAppend(rows, Row(user, name, day, delta), user, day);
  }

  /** Rows with another key are untouched, an updated row keeps its username
      and key, and at most one row is added, at the end. */
  lemma UpsertFrame(rows: seq<Row>, user: UserId, name: string, day: string, delta: int)
    ensures var s := Upserted(rows, user, name, day, delta);
      && (|s| == |rows| || (|s| == |rows| + 1 && s[|rows|] == Row(user, name, day, delta)))
      && (|s| == |rows| + 1 <==> TotalOf(rows, user, day).None?)
      && (forall i | 0 <= i < |rows| && !HasKey(rows[i], user, day) :: s[i] == rows[i])
      && (forall i | 0 <= i < |rows| && HasKey(rows[i], user, day) ::
            s[i] == rows[i].(total := Tally(rows, user, day) + delta))
  {
  }

  /** The tallies of every other (user, day) key are unchanged by an upsert. */
  lemma UpsertOtherTallies(rows: seq<Row>, user: UserId, name: string, day: string, delta: int,
                           other: UserId, otherDay: string)
    requires other != user || otherDay != day
    ensures TotalOf(Upserted(rows, user, name, day, delta), other, otherDay) == TotalOf(rows, other, otherDay)
  {
    var s := Upserted(rows, user, name, day, delta);
    UpsertFrame(rows, user, name, day, delta);
    match Find(rows, other, otherDay)
    case Some(k) =>
      assert s[k] == rows[k];
      forall j | 0 <= j < k ensures !HasKey(s[j], other, otherDay) {
        assert !HasKey(rows[j], other, otherDay);
      }
    case None =>
      forall j | 0 <= j < |s| ensures !HasKey(s[j], other, otherDay) {
        if j < |rows| {
          assert !HasKey(rows[j], other, otherDay);
        }
      }
  }

  /** After any sequence of accepted submissions, the stored total is the old
      tally plus the sum of the quantities submitted. */
  lemma {:induction false} UpsertedAllTally(rows: seq<Row>, user: UserId, name: string, day: string, deltas: seq<int>)
    ensures Tally(UpsertedAll(rows, user, name, day, deltas), user, day) == Tally(rows, user, day) + Sum(deltas)
    ensures deltas != [] ==> TotalOf(UpsertedAll(rows, user, name, day, deltas), user, day).Some?
    decreases |deltas|
  {
    if deltas != [] {
      var next := Upserted(rows, user, name, day, deltas[0]);
      UpsertTotal(rows, user, name, day, deltas[0]);
      UpsertedAllTally(next, user, name, day, deltas[1..]);
      if deltas[1..] == [] {
        assert UpsertedAll(next, user, name, day, deltas[1..]) == next;
      }
    }
  }

  /** What the leaderboard query selects: (username, total). */
  datatype Entry = Entry(username: string, total: int)

  /** Today's rows projected to entries, in storage order (before ORDER BY). */
  function TodayEntries(rows: seq<Row>, day: string): seq<Entry>
    decreases |rows|
  {
    if rows == [] then []
    else
      var last := rows[|rows| - 1];
      TodayEntries(rows[..|rows| - 1], day) + (if last.fecha == day then [Entry(last.username, last.total)] else [])
  }

  predicate NonIncreasing(d: seq<Entry>) {
    forall i, j | 0 <= i < j < |d| :: d[i].total >= d[j].total
  }

  /** A legal answer to `SELECT username, total FROM shulker WHERE fecha = ?
      ORDER BY total DESC`: today's entries in some order whose totals never go up.
      Rows with equal totals may come in any order. */
  predicate IsRankingQuery(d: seq<Entry>, rows: seq<Row>, day: string) {
    multiset(d) == multiset(TodayEntries(rows, day)) && NonIncreasing(d)
  }

  /** An entry is selected exactly when some row of that day carries it. */
  lemma {:induction false} TodayEntriesMembers(rows: seq<Row>, day: string, e: Entry)
    ensures e in TodayEntries(rows, day) <==>
      exists i | 0 <= i < |rows| :: rows[i].fecha == day && Entry(rows[i].username, rows[i].total) == e
    decreases |rows|
  {
    if rows != [] {
      var init := rows[..|rows| - 1];
      TodayEntriesMembers(init, day, e);
      if e in TodayEntries(init, day) {
        var i :| 0 <= i < |init| && init[i].fecha == day && Entry(init[i].username, init[i].total) == e;
        assert rows[i] == init[i];
      }
      if exists i | 0 <= i < |rows| :: rows[i].fecha == day && Entry(rows[i].username, rows[i].total) == e {
        var i :| 0 <= i < |rows| && rows[i].fecha == day && Entry(rows[i].username, rows[i].total) == e;
        if i < |init| {
          assert init[i] == rows[i];
        }
      }
    }
  }

  /** The number of rows dated `day`. */
  function TodayRows(rows: seq<Row>, day: string): nat
    decreases |rows|
  {
    if rows == [] then 0
    else TodayRows(rows[..|rows| - 1], day) + (if rows[|rows| - 1].fecha == day then 1 else 0)
  }

  lemma {:induction false} TodayEntriesCount(rows: seq<Row>, day: string)
    ensures |TodayEntries(rows, day)| == TodayRows(rows, day)
    ensures TodayRows(rows, day) == 0 <==> forall i | 0 <= i < |rows| :: rows[i].fecha != day
    decreases |rows|
  {
    if rows != [] {
      var init := rows[..|rows| - 1];
      TodayEntriesCount(init, day);
      if TodayRows(rows, day) == 0 {
        forall i | 0 <= i < |rows| ensures rows[i].fecha != day {
          if i < |init| {
            assert rows[i] == init[i];
          }
        }
      }
    }
  }

  /** Insertion into a list ordered by total, highest first (a witness only). */
  ghost function InsertDescending(e: Entry, s: seq<Entry>): seq<Entry>
    decreases |s|
  {
    if s == [] || e.total >= s[0].total then [e] + s
    else [s[0]] + InsertDescending(e, s[1..])
  }

  ghost function SortDescending(s: seq<Entry>): seq<Entry>
    decreases |s|
  {
    if s == [] then [] else InsertDescending(s[0], SortDescending(s[1..]))
  }

  lemma {:induction false} InsertDescendingPermutes(e: Entry, s: seq<Entry>)
    ensures multiset(InsertDescending(e, s)) == multiset(s) + multiset{e}
    decreases |s|
  {
    if s != [] && e.total < s[0].total {
      InsertDescendingPermutes(e, s[1..]);
      assert s == [s[0]] + s[1..];
    }
  }

  /** Every element of a non-increasing list is at most its head. */
  lemma HeadIsMaximum(s: seq<Entry>, x: Entry)
    requires NonIncreasing(s) && x in s
    ensures x.total <= s[0].total
  {
    var j :| 0 <= j < |s| && s[j] == x;
    if j > 0 {
      assert s[0].total >= s[j].total;
    }
  }

  lemma TailSorted(s: seq<Entry>)
    requires NonIncreasing(s) && s != []
    ensures NonIncreasing(s[1..])
  {
    forall i, j | 0 <= i < j < |s[1..]| ensures s[1..][i].total >= s[1..][j].total {
      assert s[1..][i] == s[i + 1] && s[1..][j] == s[j + 1];
    }
  }

  lemma PrependSorted(x: Entry, s: seq<Entry>)
    requires NonIncreasing(s)
    requires forall y | y in s :: y.total <= x.total
    ensures NonIncreasing([x] + s)
  {
    var r := [x] + s;
    forall i, j | 0 <= i < j < |r| ensures r[i].total >= r[j].total {
      assert r[j] == s[j - 1];
      if i > 0 {
        assert r[i] == s[i - 1];
      }
    }
  }

  lemma {:induction false} InsertDescendingSorted(e: Entry, s: seq<Entry>)
    requires NonIncreasing(s)
    ensures NonIncreasing(InsertDescending(e, s))
    decreases |s|
  {
    if s == [] || e.total >= s[0].total {
      forall y | y in s ensures y.total <= e.total {
        HeadIsMaximum(s, y);
      }
      PrependSorted(e, s);
    } else {
      var rest := InsertDescending(e, s[1..]);
      TailSorted(s);
      InsertDescendingSorted(e, s[1..]);
      forall x | x in rest ensures x.total <= s[0].total {
        InsertDescendingPermutes(e, s[1..]);
        assert x in multiset(rest);
        if x != e {
          assert x in multiset(s[1..]);
          HeadIsMaximum(s, x);
        }
      }
      PrependSorted(s[0], rest);
    }
  }

  lemma {:induction false} SortDescendingCorrect(s: seq<Entry>)
    ensures multiset(SortDescending(s)) == multiset(s)
    ensures NonIncreasing(SortDescending(s))
    decreases |s|
  {
    if s != [] {
      SortDescendingCorrect(s[1..]);
      InsertDescendingPermutes(s[0], SortDescending(s[1..]));
      InsertDescendingSorted(s[0], SortDescending(s[1..]));
      assert s == [s[0]] + s[1..];
    }
  }

  /** Every table has a legal answer to the leaderboard query. */
  lemma RankingQueryExists(rows: seq<Row>, day: string)
    ensures exists d :: IsRankingQuery(d, rows, day)
  {
    var t := TodayEntries(rows, day);
    SortDescendingCorrect(t);
    assert IsRankingQuery(SortDescending(t), rows, day);
  }

  /** The in-memory `shulker` table. Every write goes through the submission
      handler, which keeps `Valid()`. */
  class ShulkerTable {
    var rows: seq<Row>

    ghost predicate Valid()
      reads this
    {
      UniqueKeys(rows) && AllPositive(rows)
    }

    /** `CREATE TABLE IF NOT EXISTS` on a fresh database. */
    constructor ()
      ensures Valid() && rows == []
    {
      rows := [];
    }

    /** `SELECT total FROM shulker WHERE user_id = ? AND fecha = ?` then `fetchone()`. */
    method SelectTotal(user: UserId, day: string) returns (total: Option<int>)
      ensures total.None? <==> forall i | 0 <= i < |rows| :: !HasKey(rows[i], user, day)
      ensures total.Some? ==> exists i | 0 <= i < |rows| :: HasKey(rows[i], user, day) && rows[i].total == total.value
      ensures total == TotalOf(rows, user, day)
    {
      total := match Find(rows, user, day)
        case None => None
        case Some(i) => Some(rows[i].total);
    }

    /** `UPDATE shulker SET total = ? WHERE user_id = ? AND fecha = ?`. */
    method UpdateTotal(user: UserId, day: string, total: int)
      modifies this
      ensures rows == WithTotal(old(rows), user, day, total)
    {
      rows := WithTotal(rows, user, day, total);
    }

    /** `INSERT INTO shulker (user_id, username, fecha, total) VALUES (?, ?, ?, ?)`. */
    method Insert(user: UserId, name: string, day: string, total: int)
      modifies this
      ensures rows == old(rows) + [Row(user, name, day, total)]
    {
      rows := rows + [Row(user, name, day, total)];
    }

    /** `SELECT username, total FROM shulker WHERE fecha = ? ORDER BY total DESC`
        then `fetchall()`: any order the database may choose among equal totals. */
    method SelectRanking(day: string) returns (datos: seq<Entry>)
      ensures multiset(datos) == multiset(TodayEntries(rows, day))
      ensures NonIncreasing(datos)
    {
      RankingQueryExists(rows, day);
      datos :| IsRankingQuery(datos, rows, day);
    }
  }
}
