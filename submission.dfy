/** `ShulkerModal.on_submit`: validate the typed quantity, add it to the
    submitter's total for today, refresh the leaderboard. */
module Submission {
  import opened Wrappers
  import opened Validation
  import opened Users
  import opened Table
  import opened Messaging
  import opened Publish

  /** The reply the submitter gets. `Recorded` also carries the two numbers the
      log embed shows: the quantity added and the new total for today. */
  datatype Outcome = Rejected | Recorded(added: nat, newTotal: int)

  /** Lines 90-125: validation, then the SELECT and the UPDATE or INSERT, as one
      atomic step. */
  method RecordSubmission(table: ShulkerTable, user: UserId, name: string, today: string, text: string)
    returns (o: Outcome)
    requires table.Valid() && |text| <= MaxLength
    modifies table
    ensures table.Valid()
    ensures Validate(text).None? ==> o == Rejected && table.rows == old(table.rows)
    ensures Validate(text).Some? ==>
      && o == Recorded(Validate(text).value, Tally(old(table.rows), user, today) + Validate(text).value)
      && table.rows == Upserted(old(table.rows), user, name, today, Validate(text).value)
      && TotalOf(table.rows, user, today) == Some(o.newTotal)
  {
    var parsed := Validate(text);
    if parsed.None? {
      return Rejected;
    }
    var cantidad := parsed.value;
    ghost var before := table.rows;
    UpsertKeepsInvariant(before, user, name, today, cantidad);
    UpsertTotal(before, user, name, today, cantidad);
    var row := table.SelectTotal(user, today);
    var nuevoTotal;
    if row.Some? {
      nuevoTotal := row.value + cantidad;
      table.UpdateTotal(user, today, nuevoTotal);
    } else {
      nuevoTotal := cantidad;
      table.Insert(user, name, today, nuevoTotal);
    }
    return Recorded(cantidad, nuevoTotal);
  }

  /** A user with a row for today is on today's leaderboard. */
  lemma HasRowIsRanked(rows: seq<Row>, user: UserId, today: string)
    requires TotalOf(rows, user, today).Some?
    ensures TodayRows(rows, today) != 0
  {
    TodayEntriesCount(rows, today);
    var i := Find(rows, user, today).value;
    assert rows[i].fecha == today;
  }

  /** The whole handler. `date.today()` is read twice, once here and once inside
      `actualizar_ranking`: `today` and `rankingDay` are the two readings, equal
      unless midnight passes in between. After an accepted submission the
      leaderboard is always refreshed, and on the same day something is
      published unless the ranking channel is missing; a rejected submission
      touches neither the table nor the channel. */
  method OnSubmit(table: ShulkerTable, rankingChannel: Channel?, bot: UserId,
                  user: UserId, name: string, today: string, rankingDay: string, text: string)
    returns (o: Outcome, refresh: Option<Refresh>)
    requires table.Valid() && |text| <= MaxLength
    modifies table, rankingChannel
    ensures table.Valid()
    ensures o.Rejected? <==> Validate(text).None?
    ensures o.Rejected? ==> refresh.None? && table.rows == old(table.rows)
    ensures o.Rejected? && rankingChannel != null ==> rankingChannel.history == old(rankingChannel.history)
    ensures o.Recorded? ==> o.added == Validate(text).value
    ensures rankingChannel != null && refresh.Some? && (refresh.value.NothingToPublish? || refresh.value.ChannelMissing?)
      ==> rankingChannel.history == old(rankingChannel.history)
    ensures o.Recorded? ==>
      && table.rows == Upserted(old(table.rows), user, name, today, o.added)
      && TotalOf(table.rows, user, today) == Some(o.newTotal)
      && refresh.Some?
      && (rankingDay == today ==> !refresh.value.NothingToPublish?)
      && (rankingDay == today ==> (refresh.value.ChannelMissing? <==> rankingChannel == null))
    ensures refresh.Some? && (refresh.value.Edited? || refresh.value.Sent?) ==>
      && rankingChannel != null
      && (exists datos :: IsRankingQuery(datos, table.rows, rankingDay) && refresh.value.body == Ranking.RankingBody(datos))
      && rankingChannel.history == Published(old(rankingChannel.history), bot, Embed(refresh.value.body))
  {
    o := RecordSubmission(table, user, name, today, text);
    if o.Rejected? {
      return o, None;
    }
    HasRowIsRanked(table.rows, user, today);
    var r := ActualizarRanking(table, rankingDay, rankingChannel, bot);
    refresh := Some(r);
  }

  /** A user who submits "3" and then "2" on a new day has a stored total of 5. */
  lemma ThreeThenTwo(rows: seq<Row>, user: UserId, name: string, day: string)
    requires TotalOf(rows, user, day).None?
    ensures Validate("3") == Some(3) && Validate("2") == Some(2)
    ensures TotalOf(Upserted(Upserted(rows, user, name, day, 3), user, name, day, 2), user, day) == Some(5)
  {
    var once := Upserted(rows, user, name, day, 3);
    UpsertTotal(rows, user, name, day, 3);
    UpsertTotal(once, user, name, day, 2);
  }
}
