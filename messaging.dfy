/** A chat channel as the bot sees it: its message history, newest first,
    and the platform operations the bot calls on it. */
module Messaging {
  import opened Users

  /** An embed, reduced to its description text. */
  datatype Embed = Embed(description: string)

  datatype Message = Message(author: UserId, embeds: seq<Embed>)

  class Channel {
    /** Newest message first. */
    var history: seq<Message>

    constructor (history: seq<Message>)
      ensures this.history == history
    {
      this.history := history;
    }

    /** `channel.send(embed=...)`: the new message becomes the newest. */
    method Send(m: Message)
      modifies this
      ensures history == [m] + old(history)
    {
      history := [m] + history;
    }

    /** `msg.edit(embed=e)`: the message's embeds are replaced by `[e]`, in place. */
    method Edit(i: nat, e: Embed)
      requires i < |history|
      modifies this
      ensures history == old(history)[i := old(history)[i].(embeds := [e])]
    {
      history := history[i := history[i].(embeds := [e])];
    }

    /** `msg.delete()`. */
    method Delete(i: nat)
      requires i < |history|
      modifies this
      ensures history == old(history)[..i] + old(history)[i + 1..]
    {
      history := history[..i] + history[i + 1..];
    }
  }

  /** The number of messages `channel.history(limit=limit)` yields. */
  function Window(h: seq<Message>, limit: nat): (w: nat)
    ensures w <= |h| && w <= limit && (w == |h| || w == limit)
  {
    if |h| < limit then |h| else limit
  }
}
