/** `on_ready`: delete the bot's own messages among the 50 newest of the form
    channel, then send one fresh form message. */
module Cleanup {
  import opened Users
  import opened Messaging

  /** `channel.history(limit=50)`. */
  const CleanupScanDepth: nat := 50

  const FormPrompt: string := "Presiona el botón para registrar cuántas shulker colocaste hoy."

  /** The form message: an embed with the prompt (the button view is not modelled). */
  function FormMessage(bot: UserId): Message {
    Message(bot, [Embed(FormPrompt)])
  }

  /** The messages of `s` not authored by the bot, in order. */
  function Kept(s: seq<Message>, bot: UserId): seq<Message>
    decreases |s|
  {
    if s == [] then []
    else Kept(s[..|s| - 1], bot) + (if s[|s| - 1].author == bot then [] else [s[|s| - 1]])
  }

  /** The number of messages of `s` authored by the bot. */
  function BotCount(s: seq<Message>, bot: UserId): nat
    decreases |s|
  {
    if s == [] then 0
    else BotCount(s[..|s| - 1], bot) + (if s[|s| - 1].author == bot then 1 else 0)
  }

  /** The history after the deletions: the bot's messages go from the scanned
      window; everything older is untouched. */
  function Cleaned(h: seq<Message>, bot: UserId): seq<Message> {
    var w := Window(h, CleanupScanDepth);
    Kept(h[..w], bot) + h[w..]
  }

  /** `on_ready`; `channel` is null when `bot.get_channel` finds no form channel. */
  method OnReady(channel: Channel?, bot: UserId) returns (deleted: nat)
    modifies channel
    ensures channel == null ==> deleted == 0
    ensures channel != null ==>
      && channel.history == [FormMessage(bot)] + Cleaned(old(channel.history), bot)
      && deleted == BotCount(old(channel.history)[..Window(old(channel.history), CleanupScanDepth)], bot)
  {
    if channel == null {
      return 0;
    }
    deleted := DeleteOwnMessages(channel, bot);
    channel.Send(FormMessage(bot));
  }

  /** The `async for` over `history(limit=50)`: the window is read once, and each
      bot message in it is deleted where it now stands. */
  method DeleteOwnMessages(channel: Channel, bot: UserId) returns (deleted: nat)
    modifies channel
    ensures channel.history == Cleaned(old(channel.history), bot)
    ensures deleted == BotCount(old(channel.history)[..Window(old(channel.history), CleanupScanDepth)], bot)
  {
    ghost var h := channel.history;
    var window := channel.history[..Window(channel.history, CleanupScanDepth)];
    var i, j := 0, 0;
    ghost var kept: seq<Message> := [];
    deleted := 0;
    while i < |window|
      invariant 0 <= i <= |window| <= |h|
      invariant window == h[..|window|]
      invariant kept == Kept(window[..i], bot) && j == |kept|
      invariant deleted == BotCount(window[..i], bot)
      invariant channel.history == kept + h[i..]
    {
      Step(window, h, i, bot);
      SplitAfter(kept, h[i..]);
      if window[i].author == bot {
        channel.Delete(j);
        deleted := deleted + 1;
      } else {
        kept := kept + [window[i]];
        j := j + 1;
      }
      i := i + 1;
    }
    assert window[..i] == window;
  }

  /** The message after the kept prefix, and what deleting it leaves. */
  lemma SplitAfter(kept: seq<Message>, rest: seq<Message>)
    requires rest != []
    ensures (kept + rest)[|kept|] == rest[0]
    ensures (kept + rest)[..|kept|] + (kept + rest)[|kept| + 1..] == kept + rest[1..]
    ensures kept + rest == (kept + [rest[0]]) + rest[1..]
  {
    assert (kept + rest)[..|kept|] == kept;
    assert (kept + rest)[|kept| + 1..] == rest[1..];
  }

  /** One more scanned message: it is either counted or kept. */
  lemma Step(window: seq<Message>, h: seq<Message>, i: nat, bot: UserId)
    requires i < |window| <= |h| && window == h[..|window|]
    ensures Kept(window[..i + 1], bot) ==
      Kept(window[..i], bot) + (if window[i].author == bot then [] else [window[i]])
    ensures BotCount(window[..i + 1], bot) ==
      BotCount(window[..i], bot) + (if window[i].author == bot then 1 else 0)
    ensures h[i..] == [window[i]] + h[i + 1..]
  {
    assert window[..i + 1][..i] == window[..i];
  }

  /** The deletions remove exactly the bot's messages: the counts add up, none
      of the bot's is left, and every other message survives as often as it occurred. */
  lemma {:induction false} KeptLength(s: seq<Message>, bot: UserId)
    ensures |Kept(s, bot)| + BotCount(s, bot) == |s|
    decreases |s|
  {
    if s != [] {
      KeptLength(s[..|s| - 1], bot);
    }
  }

  lemma {:induction false} KeptNotBot(s: seq<Message>, bot: UserId)
    ensures forall i | 0 <= i < |Kept(s, bot)| :: Kept(s, bot)[i].author != bot
    decreases |s|
  {
    if s != [] {
      KeptNotBot(s[..|s| - 1], bot);
    }
  }

  lemma {:induction false} KeptCounts(s: seq<Message>, bot: UserId, m: Message)
    requires m.author != bot
    ensures multiset(Kept(s, bot))[m] == multiset(s)[m]
    decreases |s|
  {
    if s != [] {
      var init := s[..|s| - 1];
      KeptCounts(init, bot, m);
      assert s == init + [s[|s| - 1]];
    }
  }

  lemma {:induction false} BotCountAppend(a: seq<Message>, b: seq<Message>, bot: UserId)
    ensures BotCount(a + b, bot) == BotCount(a, bot) + BotCount(b, bot)
    decreases |b|
  {
    if b == [] {
      assert a + b == a;
    } else {
      var b' := b[..|b| - 1];
      assert (a + b)[..|a + b| - 1] == a + b';
      assert (a + b)[|a + b| - 1] == b[|b| - 1];
      BotCountAppend(a, b', bot);
    }
  }

  lemma {:induction false} NoBotMessages(s: seq<Message>, bot: UserId)
    requires forall i | 0 <= i < |s| :: s[i].author != bot
    ensures BotCount(s, bot) == 0 && Kept(s, bot) == s
    decreases |s|
  {
    if s != [] {
      NoBotMessages(s[..|s| - 1], bot);
    }
  }

  lemma {:induction false} OnlyBotMessages(s: seq<Message>, bot: UserId)
    requires forall i | 0 <= i < |s| :: s[i].author == bot
    ensures Kept(s, bot) == [] && BotCount(s, bot) == |s|
    decreases |s|
  {
    if s != [] {
      OnlyBotMessages(s[..|s| - 1], bot);
    }
  }

  /** When no bot message lies beyond the scanned window, after `on_ready` the
      channel holds exactly one bot message: the new form. */
  lemma SingleFormAfterReady(h: seq<Message>, bot: UserId)
    requires forall j | CleanupScanDepth <= j < |h| :: h[j].author != bot
    ensures BotCount([FormMessage(bot)] + Cleaned(h, bot), bot) == 1
    ensures forall i | 0 <= i < |Cleaned(h, bot)| :: Cleaned(h, bot)[i].author != bot
  {
    var w := Window(h, CleanupScanDepth);
    var c := Cleaned(h, bot);
    KeptNotBot(h[..w], bot);
    NoBotMessages(h[w..], bot);
    forall i | 0 <= i < |c| ensures c[i].author != bot {
      if i >= |Kept(h[..w], bot)| {
        assert c[i] == h[w..][i - |Kept(h[..w], bot)|];
      }
    }
    NoBotMessages(c, bot);
    BotCountAppend([FormMessage(bot)], c, bot);
    assert [FormMessage(bot)][..0] == [];
  }

  /** Under the same condition a second `on_ready` deletes exactly the previous
      form and leaves the channel as it found it. */
  lemma ReadyIsIdempotent(h: seq<Message>, bot: UserId)
    requires forall j | CleanupScanDepth <= j < |h| :: h[j].author != bot
    ensures var h1 := [FormMessage(bot)] + Cleaned(h, bot);
      && BotCount(h1[..Window(h1, CleanupScanDepth)], bot) == 1
      && [FormMessage(bot)] + Cleaned(h1, bot) == h1
  {
    SingleFormAfterReady(h, bot);
    ReadyAgain([FormMessage(bot)], Cleaned(h, bot), bot);
  }

  /** `on_ready` on a history whose only bot message is its newest, a form. */
  lemma ReadyAgain(form: seq<Message>, c: seq<Message>, bot: UserId)
    requires form == [FormMessage(bot)]
    requires forall i | 0 <= i < |c| :: c[i].author != bot
    ensures BotCount((form + c)[..Window(form + c, CleanupScanDepth)], bot) == 1
    ensures Cleaned(form + c, bot) == c
  {
    var h1 := form + c;
    var w := Window(h1, CleanupScanDepth);
    var rest := c[..w - 1];
    assert h1[..w] == form + rest;
    assert BotCount(h1[..w], bot) == 1 by {
      NoBotMessages(rest, bot);
      FormAlone(form, bot);
      BotCountAppend(form, rest, bot);
    }
    assert Kept(h1[..w], bot) == rest by {
      NoBotMessages(rest, bot);
      FormAlone(form, bot);
      KeptAppend(form, rest, bot);
    }
    assert h1[w..] == c[w - 1..];
    calc {
      Cleaned(h1, bot);
      Kept(h1[..w], bot) + h1[w..];
      rest + c[w - 1..];
      c;
    }
  }

  lemma FormAlone(form: seq<Message>, bot: UserId)
    requires form == [FormMessage(bot)]
    ensures Kept(form, bot) == [] && BotCount(form, bot) == 1
  {
    assert form[..0] == [];
  }

  lemma {:induction false} KeptAppend(a: seq<Message>, b: seq<Message>, bot: UserId)
    ensures Kept(a + b, bot) == Kept(a, bot) + Kept(b, bot)
    decreases |b|
  {
    if b == [] {
      assert a + b == a;
    } else {
      var b' := b[..|b| - 1];
      assert (a + b)[..|a + b| - 1] == a + b';
      assert (a + b)[|a + b| - 1] == b[|b| - 1];
      KeptAppend(a, b', bot);
    }
  }

  /** Without that condition the window can end up with two forms: 51 stale
      forms, of which only the 50 newest are scanned, leave one behind next to
      the new one. */
  lemma StaleFormBeyondWindow(bot: UserId)
    ensures var h := seq(CleanupScanDepth + 1, _ => FormMessage(bot));
      [FormMessage(bot)] + Cleaned(h, bot) == [FormMessage(bot), FormMessage(bot)]
  {
    var h := seq(CleanupScanDepth + 1, _ => FormMessage(bot));
    var w := h[..CleanupScanDepth];
    assert forall i | 0 <= i < |w| :: w[i].author == bot;
    OnlyBotMessages(w, bot);
    assert h[CleanupScanDepth..] == [FormMessage(bot)];
  }
}
