/** `actualizar_ranking`: query today's rows, render the leaderboard, and
    edit the bot's latest embed message in the ranking channel or send a new one. */
module Publish {
  import opened Wrappers
  import opened Users
  import opened Table
  import opened Ranking
  import opened Messaging

  /** `channel.history(limit=10)`: how far back the previous leaderboard is looked for. */
  const RankingScanDepth: nat := 10

  /** The test in the scan: authored by the bot and carrying at least one embed. */
  predicate IsEditable(m: Message, bot: UserId) {
    m.author == bot && |m.embeds| > 0
  }

  /** The first editable message among the `limit` newest, if any. */
  function FirstEditable(h: seq<Message>, bot: UserId, limit: nat): (r: Option<nat>)
    ensures r.Some? ==> r.value < limit && r.value < |h| && IsEditable(h[r.value], bot)
    ensures r.Some? ==> forall j | 0 <= j < r.value :: !IsEditable(h[j], bot)
    ensures r.None? <==> forall j | 0 <= j < limit && j < |h| :: !IsEditable(h[j], bot)
    decreases limit
  {
    if h == [] || limit == 0 then None
    else if IsEditable(h[0], bot) then Some(0)
    else match FirstEditable(h[1..], bot, limit - 1)
      case None => None
      case Some(k) => Some(k + 1)
  }

  /** The channel history after publishing the embed `e`. */
  function Published(h: seq<Message>, bot: UserId, e: Embed): seq<Message> {
    match FirstEditable(h, bot, RankingScanDepth)
    case Some(i) => h[i := h[i].(embeds := [e])]
    case None => [Message(bot, [e])] + h
  }

  /** The scan over the 10 newest messages with its early-return edit, and the
      send when none qualifies. */
  method Publish(channel: Channel, bot: UserId, e: Embed) returns (edited: Option<nat>)
    modifies channel
    ensures edited == FirstEditable(old(channel.history), bot, RankingScanDepth)
    ensures channel.history == Published(old(channel.history), bot, e)
  {
    var i := 0;
    while i < |channel.history| && i < RankingScanDepth
      invariant 0 <= i <= RankingScanDepth && i <= |channel.history|
      invariant channel.history == old(channel.history)
      invariant forall j | 0 <= j < i :: !IsEditable(channel.history[j], bot)
    {
      if IsEditable(channel.history[i], bot) {
        channel.Edit(i, e);
        return Some(i);
      }
      i := i + 1;
    }
    channel.Send(Message(bot, [e]));
    return None;
  }

  /** One publish is exactly one write: either one message among the 10 newest
      has its embeds replaced, or one new bot message is put in front. */
  lemma PublishSingleWrite(h: seq<Message>, bot: UserId, e: Embed)
    ensures var p := Published(h, bot, e);
      || (|p| == |h| && exists i | 0 <= i < RankingScanDepth && i < |h| ::
            IsEditable(h[i], bot) && p == h[i := h[i].(embeds := [e])])
      || (p == [Message(bot, [e])] + h
          && forall j | 0 <= j < RankingScanDepth && j < |h| :: !IsEditable(h[j], bot))
  {
  }

  /** Publishing twice is publishing once with the second embed: the second call
      edits the message the first one wrote instead of creating another. */
  lemma {:induction false} RepublishEditsInPlace(h: seq<Message>, bot: UserId, e1: Embed, e2: Embed)
    ensures FirstEditable(Published(h, bot, e1), bot, RankingScanDepth).Some?
    ensures Published(Published(h, bot, e1), bot, e2) == Published(h, bot, e2)
  {
    var p := Published(h, bot, e1);
    match FirstEditable(h, bot, RankingScanDepth)
    case Some(i) =>
      assert IsEditable(p[i], bot);
      forall j | 0 <= j < i ensures !IsEditable(p[j], bot) {
        assert p[j] == h[j];
      }
      assert FirstEditable(p, bot, RankingScanDepth) == Some(i);
      assert p[i := p[i].(embeds := [e2])] == h[i := h[i].(embeds := [e2])];
    case None =>
      assert IsEditable(p[0], bot);
      assert FirstEditable(p, bot, RankingScanDepth) == Some(0);
      assert p[0 := p[0].(embeds := [e2])] == [Message(bot, [e2])] + h;
  }

  /** The scan looks back only 10 messages: once ten messages by someone else
      have pushed the previous leaderboard out of that window, a publish sends a
      second leaderboard and the old one stays in the channel. */
  lemma StaleRankingBeyondWindow(bot: UserId, stale: Embed, e: Embed)
    ensures var h := seq(RankingScanDepth, _ => Message(bot + 1, [])) + [Message(bot, [stale])];
      var p := Published(h, bot, e);
      && p == [Message(bot, [e])] + h
      && IsEditable(p[0], bot) && IsEditable(p[RankingScanDepth + 1], bot)
  {
  }

  /** What one leaderboard refresh did. */
  datatype Refresh =
    | NothingToPublish           // no row for today
    | ChannelMissing             // the ranking channel could not be resolved
    | Edited(index: nat, body: string)
    | Sent(body: string)

  /** `actualizar_ranking(bot)` on day `today`; `channel` is null when
      `bot.get_channel` finds no ranking channel. */
  method ActualizarRanking(table: ShulkerTable, today: string, channel: Channel?, bot: UserId)
    returns (r: Refresh)
    modifies channel
    ensures r.NothingToPublish? <==> TodayRows(table.rows, today) == 0
    ensures r.ChannelMissing? <==> TodayRows(table.rows, today) != 0 && channel == null
    ensures channel != null && (r.NothingToPublish? || r.ChannelMissing?) ==>
      channel.history == old(channel.history)
    ensures r.Edited? || r.Sent? ==>
      && channel != null
      && r.body != ""
      && (exists datos :: IsRankingQuery(datos, table.rows, today) && r.body == RankingBody(datos))
      && channel.history == Published(old(channel.history), bot, Embed(r.body))
      && (r.Edited? ==> FirstEditable(old(channel.history), bot, RankingScanDepth) == Some(r.index))
      && (r.Sent? <==> FirstEditable(old(channel.history), bot, RankingScanDepth).None?)
  {
    var datos := table.SelectRanking(today);
    assert IsRankingQuery(datos, table.rows, today);
    RankingContents(datos, table.rows, today);
    if |datos| == 0 {
      return NothingToPublish;
    }
    var descripcion := BuildDescription(datos);
    RankingBodyEmpty(datos);
    if channel == null {
      return ChannelMissing;
    }
    var edited := Publish(channel, bot, Embed(descripcion));
    match edited
    case Some(i) => r := Edited(i, descripcion);
    case None => r := Sent(descripcion);
  }
}
