/**
  The bot's event handler: incoming messages are filtered, `!setconfig` is
  handled at once, and every other guild message goes through a bounded
  first-in-first-out queue that is drained right after the message is added.
  The two SQLite tables and the calls made to Discord are fields of the handler.
 */
module Bot {
  import opened Wrappers
  import opened RustStr
  import opened Ids
  import opened Config
  import opened Actions
  import opened Command
  import opened Worker

  /** The capacity of the message queue's channel. */
  const CAPACITY: nat := 100

  /** The command prefix; anything that merely starts with it is taken for the command. */
  const SETCONFIG_PREFIX: string := "!setconfig"

  /** A message as the gateway delivers it. */
  datatype InboundMessage = InboundMessage(
    authorIsBot: bool,
    guildId: Option<u64>,   // None for a direct message
    channelId: u64,
    authorId: u64,
    content: string)

  /** Where the handler sends a message. */
  datatype Dispatch =
    | Ignore                             // from a bot, or not in a guild
    | SetConfigCommand(guildId: u64)     // handled at once, never queued
    | Enqueue(item: QueuedMessage)       // queued for the worker

  /**
    The handler's first decisions: bots and direct messages are dropped, a
    message starting with `!setconfig` goes to the command, and every other
    guild message is queued as it is.
   */
  function DispatchOf(msg: InboundMessage): (d: Dispatch)
    ensures d.Ignore? <==> msg.authorIsBot || msg.guildId.None?
    ensures d.SetConfigCommand? <==> !msg.authorIsBot && msg.guildId.Some? && StartsWith(msg.content, SETCONFIG_PREFIX)
    ensures d.SetConfigCommand? ==> d.guildId == msg.guildId.value
    ensures d.Enqueue? ==> d.item == QueuedMessage(msg.guildId.value, msg.channelId, msg.content, msg.authorId)
  {
    if msg.authorIsBot || msg.guildId.None? then Ignore
    else if StartsWith(msg.content, SETCONFIG_PREFIX) then SetConfigCommand(msg.guildId.value)
    else Enqueue(QueuedMessage(msg.guildId.value, msg.channelId, msg.content, msg.authorId))
  }

  /** The prefix test is all there is: a longer first word still reaches the command. */
  lemma DispatchPrefix(msg: InboundMessage, rest: string)
    requires !msg.authorIsBot && msg.guildId.Some?
    requires msg.content == SETCONFIG_PREFIX + rest
    ensures DispatchOf(msg) == SetConfigCommand(msg.guildId.value)
  {
    assert StartsWith(msg.content, SETCONFIG_PREFIX);
  }

  /** A registration form from a guild member is queued, never taken for the command. */
  lemma DispatchForm(msg: InboundMessage)
    requires !msg.authorIsBot && msg.guildId.Some? && msg.content == "Name: Alice, Age: 30"
    ensures DispatchOf(msg).Enqueue?
  {
    assert msg.content[0] != SETCONFIG_PREFIX[0];
  }

  class Handler {
    /** The guild_configs table. */
    var configs: ConfigTable
    /** The registrations table, in insertion order. */
    var registrations: seq<Registration>
    /** The messages waiting in the queue, oldest first. */
    var buffer: seq<QueuedMessage>
    /** Every call made to Discord or SQLite so far, in order. */
    var outbox: seq<Action>

    predicate Valid()
      reads this
    {
      |buffer| <= CAPACITY
    }

    /** A handler over the database as found, with an empty queue. */
    constructor (configs0: ConfigTable, registrations0: seq<Registration>)
      ensures Valid()
      ensures configs == configs0 && registrations == registrations0 && buffer == [] && outbox == []
    {
      configs := configs0;
      registrations := registrations0;
      buffer := [];
      outbox := [];
    }

    /** `tx.send`: the message joins the back of the queue. */
    method Send(item: QueuedMessage)
      requires Valid() && |buffer| < CAPACITY
      modifies this
      ensures Valid()
      ensures buffer == old(buffer) + [item]
      ensures configs == old(configs) && registrations == old(registrations) && outbox == old(outbox)
    {
      buffer := buffer + [item];
    }

    /** `rx.try_recv`: the oldest waiting message, if there is one. */
    method TryRecv() returns (r: Option<QueuedMessage>)
      requires Valid()
      modifies this
      ensures Valid()
      ensures old(buffer) == [] ==> r.None? && buffer == []
      ensures old(buffer) != [] ==> r == Some(old(buffer)[0]) && buffer == old(buffer)[1..]
      ensures configs == old(configs) && registrations == old(registrations) && outbox == old(outbox)
    {
      if buffer == [] {
        r := None;
      } else {
        r := Some(buffer[0]);
        buffer := buffer[1..];
      }
    }

    /**
      One turn of `process_queue`'s loop: the worker handles `item`, the message
      at position `n` of the drain, after the messages `done` before it.
     */
    method Work(item: QueuedMessage, n: nat, env: nat -> Outcomes, ghost done: seq<QueuedMessage>, ghost outbox0: seq<Action>,
                ghost registrations0: seq<Registration>)
      requires n == |done|
      requires outbox == outbox0 + Drain(configs, done, env).actions
      requires registrations == registrations0 + Drain(configs, done, env).stored
      modifies this
      ensures outbox == outbox0 + Drain(configs, done + [item], env).actions
      ensures registrations == registrations0 + Drain(configs, done + [item], env).stored
      ensures configs == old(configs) && buffer == old(buffer)
    {
      var e := Step(configs, item, env(n));
      DrainSnocLogged(configs, done, item, env, outbox0, registrations0);
      outbox := outbox + e.actions;
      registrations := registrations + e.stored;
    }

    /**
      `process_queue`: take messages from the front until the queue is empty,
      handing each to the worker. Every waiting message is handled exactly once,
      in the order it was queued, and the `i`-th of them meets the outcomes
      `env(i)`.
     */
    method ProcessQueue(env: nat -> Outcomes)
      requires Valid()
      modifies this
      ensures Valid()
      ensures buffer == []
      ensures configs == old(configs)
      ensures outbox == old(outbox) + Drain(configs, old(buffer), env).actions
      ensures registrations == old(registrations) + Drain(configs, old(buffer), env).stored
    {
      ghost var items := buffer;
      var n := 0;
      var next := TryRecv();
      while next.Some?
        invariant Valid()
        invariant configs == old(configs)
        invariant n <= |items|
        invariant next.Some? ==> n < |items| && next.value == items[n] && buffer == items[n + 1..]
        invariant next.None? ==> n == |items| && buffer == []
        invariant outbox == old(outbox) + Drain(configs, items[..n], env).actions
        invariant registrations == old(registrations) + Drain(configs, items[..n], env).stored
        decreases |buffer| + (if next.Some? then 1 else 0)
      {
        Work(next.value, n, env, items[..n], old(outbox), old(registrations));
        assert items[..n] + [next.value] == items[..n + 1];
        n := n + 1;
        next := TryRecv();
      }
      assert items[..n] == items;
    }

    /** `handle_setconfig`, with its calls' outcomes given; the error it returns is only logged. */
    method HandleSetConfig(guildId: u64, channelId: u64, content: string, calls: CommandCalls)
      returns (result: Result<(), CommandError>)
      requires Valid()
      modifies this
      ensures Valid()
      ensures var run := RunSetConfig(old(configs), guildId, channelId, content, calls);
              result == run.result && configs == run.table && outbox == old(outbox) + run.actions
      ensures buffer == old(buffer) && registrations == old(registrations)
    {
      var run := RunSetConfig(configs, guildId, channelId, content, calls);
      configs := run.table;
      outbox := outbox + run.actions;
      result := run.result;
    }

    /**
      The `message` event: dispatch, then either run the command, or queue the
      message and drain the whole queue at once. After a queued message the
      queue is empty again.
     */
    method Message(msg: InboundMessage, calls: CommandCalls, env: nat -> Outcomes)
      requires Valid() && |buffer| < CAPACITY
      modifies this
      ensures Valid()
      ensures DispatchOf(msg).Ignore?
              ==> configs == old(configs) && registrations == old(registrations)
                  && buffer == old(buffer) && outbox == old(outbox)
      ensures DispatchOf(msg).SetConfigCommand?
              ==> var run := RunSetConfig(old(configs), DispatchOf(msg).guildId, msg.channelId, msg.content, calls);
                  configs == run.table && outbox == old(outbox) + run.actions
                  && buffer == old(buffer) && registrations == old(registrations)
      ensures DispatchOf(msg).Enqueue?
              ==> var drained := Drain(old(configs), old(buffer) + [DispatchOf(msg).item], env);
                  buffer == [] && configs == old(configs)
                  && outbox == old(outbox) + drained.actions
                  && registrations == old(registrations) + drained.stored
    {
      match DispatchOf(msg)
      case Ignore =>
      case SetConfigCommand(guildId) =>
        var _ := HandleSetConfig(guildId, msg.channelId, msg.content, calls);
      case Enqueue(item) =>
        Send(item);
        ProcessQueue(env);
    }
  }
}
