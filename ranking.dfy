/** The leaderboard text `actualizar_ranking` builds from the query result. */
module Ranking {
  import opened Decimal
  import opened Table

  /** `f"**{i}. {user}** — {total} shulker\n"`. */
  function RankLine(rank: nat, e: Entry): string {
    "**" + NatString(rank) + ". " + e.username + "** — " + IntString(e.total) + " shulker\n"
  }

  /** The description after the `enumerate(datos, start=1)` loop: one line per
      entry, ranks 1, 2, ... in query order. */
  function RankingBody(datos: seq<Entry>): string
    decreases |datos|
  {
    if datos == [] then ""
    else RankingBody(datos[..|datos| - 1]) + RankLine(|datos|, datos[|datos| - 1])
  }

  /** The `for` loop that appends one line per query row to `descripcion`. */
  method BuildDescription(datos: seq<Entry>) returns (descripcion: string)
    ensures descripcion == RankingBody(datos)
  {
    descripcion := "";
    var i := 0;
    while i < |datos|
      invariant 0 <= i <= |datos|
      invariant descripcion == RankingBody(datos[..i])
    {
      descripcion := descripcion + RankLine(i + 1, datos[i]);
      assert datos[..i + 1][..i] == datos[..i];
      i := i + 1;
    }
    assert datos[..i] == datos;
  }

  function CountChar(s: string, c: char): nat
    decreases |s|
  {
    if s == [] then 0 else CountChar(s[..|s| - 1], c) + (if s[|s| - 1] == c then 1 else 0)
  }

  lemma {:induction false} CountCharAppend(a: string, b: string, c: char)
    ensures CountChar(a + b, c) == CountChar(a, c) + CountChar(b, c)
    decreases |b|
  {
    if b != [] {
      var b' := b[..|b| - 1];
      assert (a + b)[..|a + b| - 1] == a + b';
      assert (a + b)[|a + b| - 1] == b[|b| - 1];
      CountCharAppend(a, b', c);
    } else {
      assert a + b == a;
    }
  }

  lemma {:induction false} CountCharNone(s: string, c: char)
    requires forall i | 0 <= i < |s| :: s[i] != c
    ensures CountChar(s, c) == 0
    decreases |s|
  {
    if s != [] {
      CountCharNone(s[..|s| - 1], c);
    }
  }

  /** A rank line holds exactly one line break, at its end. */
  lemma RankLineSingleBreak(rank: nat, e: Entry)
    requires '\n' !in e.username
    ensures CountChar(RankLine(rank, e), '\n') == 1
    ensures RankLine(rank, e)[|RankLine(rank, e)| - 1] == '\n'
  {
    var r := NatString(rank);
    var t := IntString(e.total);
    assert forall i | 0 <= i < |t| :: t[i] != '\n' by {
      if e.total < 0 {
        assert forall i | 1 <= i < |t| :: t[i] == t[1..][i - 1];
      }
    }
    var text := "**" + r + ". " + e.username + "** — " + t + " shulker";
    assert RankLine(rank, e) == text + "\n";
    CountCharNone(text, '\n');
    CountCharAppend(text, "\n", '\n');
  }

  /** When no username contains a line break, the body has exactly one line per entry. */
  lemma {:induction false} RankingBodyLineCount(datos: seq<Entry>)
    requires forall i | 0 <= i < |datos| :: '\n' !in datos[i].username
    ensures CountChar(RankingBody(datos), '\n') == |datos|
    decreases |datos|
  {
    if datos != [] {
      var n := |datos|;
      RankingBodyLineCount(datos[..n - 1]);
      RankLineSingleBreak(n, datos[n - 1]);
      CountCharAppend(RankingBody(datos[..n - 1]), RankLine(n, datos[n - 1]), '\n');
    }
  }

  /** The body is empty exactly when the query returned no rows. */
  lemma RankingBodyEmpty(datos: seq<Entry>)
    ensures RankingBody(datos) == "" <==> datos == []
  {
  }

  /** The first k lines of the body are the body of the first k entries, and
      line k + 1 follows them, numbered k + 1: ranks run 1..n with no gap. */
  lemma {:induction false} RankingBodyLine(datos: seq<Entry>, k: nat)
    requires k < |datos|
    ensures RankingBody(datos[..k]) + RankLine(k + 1, datos[k]) <= RankingBody(datos)
    decreases |datos|
  {
    var n := |datos|;
    if k == n - 1 {
      assert datos[..n - 1] == datos[..k];
    } else {
      var init := datos[..n - 1];
      RankingBodyLine(init, k);
      assert init[..k] == datos[..k] && init[k] == datos[k];
    }
  }

  /** Whatever order the database returns, the leaderboard has one entry per
      row dated today, nothing from other days, and non-increasing totals. */
  lemma RankingContents(datos: seq<Entry>, rows: seq<Row>, day: string)
    requires IsRankingQuery(datos, rows, day)
    ensures |datos| == TodayRows(rows, day)
    ensures forall i | 0 <= i < |datos| ::
      exists r | 0 <= r < |rows| :: rows[r].fecha == day && Entry(rows[r].username, rows[r].total) == datos[i]
    ensures forall i, j | 0 <= i < j < |datos| :: datos[i].total >= datos[j].total
  {
    assert |datos| == |multiset(datos)| == |multiset(TodayEntries(rows, day))| == |TodayEntries(rows, day)|;
    TodayEntriesCount(rows, day);
    forall i | 0 <= i < |datos|
      ensures exists r | 0 <= r < |rows| :: rows[r].fecha == day && Entry(rows[r].username, rows[r].total) == datos[i]
    {
      assert datos[i] in multiset(datos);
      TodayEntriesMembers(rows, day, datos[i]);
    }
  }

  /** In any legal order, an entry whose total is below every other entry's comes last. */
  lemma LowestRankedLast(d: seq<Entry>, x: Entry)
    requires NonIncreasing(d) && x in d
    requires forall y | y in d && y != x :: y.total > x.total
    ensures d[|d| - 1] == x
  {
    var k :| 0 <= k < |d| && d[k] == x;
    assert d[|d| - 1] in d;
  }

  /** Entries {A: 5, B: 9, C: 9}: every legal query answer puts A last; B and C
      may come in either order. */
  lemma TiesExample(a: string, b: string, c: string)
    requires a != b && b != c && a != c
    ensures forall d: seq<Entry> :: multiset(d) == multiset{Entry(a, 5), Entry(b, 9), Entry(c, 9)} && NonIncreasing(d) ==>
      |d| == 3 && d[2] == Entry(a, 5)
    ensures NonIncreasing([Entry(b, 9), Entry(c, 9), Entry(a, 5)])
    ensures NonIncreasing([Entry(c, 9), Entry(b, 9), Entry(a, 5)])
  {
    forall d: seq<Entry> | multiset(d) == multiset{Entry(a, 5), Entry(b, 9), Entry(c, 9)} && NonIncreasing(d)
      ensures |d| == 3 && d[2] == Entry(a, 5)
    {
      assert |d| == |multiset(d)| == 3;
      assert Entry(a, 5) in multiset(d);
      forall y | y in d && y != Entry(a, 5) ensures y.total > 5 {
        assert y in multiset(d);
      }
      LowestRankedLast(d, Entry(a, 5));
    }
  }
}
