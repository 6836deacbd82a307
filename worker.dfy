/**
  `process_message_worker`: what one queued message leads to, given the guild's
  configuration and the outcomes of the calls the worker makes, and the drain of
  a sequence of queued messages one after the other.
 */
module Worker {
  import opened Wrappers
  import opened Ids
  import opened Forms
  import opened Config
  import opened Actions

  /** A guild message as it waits in the queue. */
  datatype QueuedMessage = QueuedMessage(guildId: u64, channelId: u64, content: string, authorId: u64)

  /**
    The outcomes of the calls the worker may make for one message: the config
    query, the registrations insert, the role grant (fetching the member and
    adding the role) and the alert in the admin channel. Replies are sent with
    their result discarded, so they have no outcome here.
   */
  datatype Outcomes = Outcomes(lookupOk: bool, saveOk: bool, grantOk: bool, alertOk: bool)

  /** What the worker did: the calls it attempted, in order, and the rows it stored. */
  datatype Effects = Effects(actions: seq<Action>, stored: seq<Registration>)

  /** The message was posted in the guild's registration channel. */
  predicate InRegistration(cfg: Option<GuildConfig>, m: QueuedMessage) {
    cfg.Some? && m.channelId == cfg.value.registrationChannel
  }

  /** The message was posted in the manual channel (and that is not also the registration channel). */
  predicate InManual(cfg: Option<GuildConfig>, m: QueuedMessage) {
    cfg.Some? && m.channelId != cfg.value.registrationChannel && m.channelId == cfg.value.manualChannel
  }

  /** The registrations row a parsed registration form gives. */
  function RowFor(m: QueuedMessage, form: (string, string)): Registration {
    Registration(AsI64(m.guildId), form.0, form.1)
  }

  /**
    The worker's decisions for one message, given the configuration lookup's
    result and what the two form parsers make of the content. Without a
    configuration, or outside the two channels, or with a form that does not
    parse, nothing is attempted. A registration is stored before the role is
    granted; a failed store is answered with an error and ends the message; the
    confirmation follows only a successful grant. A review request is answered
    only once the alert has gone out.
   */
  function Respond(cfg: Option<GuildConfig>, m: QueuedMessage, form: Option<(string, string)>,
                   request: Option<string>, o: Outcomes): (e: Effects)
    ensures e.actions == [] <==> !(InRegistration(cfg, m) && form.Some?) && !(InManual(cfg, m) && request.Some?)
    ensures |e.actions| <= 3
    ensures forall i, j :: 0 <= i < j < |e.actions| ==> KindOf(e.actions[i]) != KindOf(e.actions[j])
    ensures e.actions != [] ==> e.actions[0] == if InRegistration(cfg, m)
                                               then SaveRegistration(RowFor(m, form.value))
                                               else PostAlert(cfg.value.adminChannel, cfg.value.adminRole, request.value)
    ensures e.stored == (if InRegistration(cfg, m) && form.Some? && o.saveOk then [RowFor(m, form.value)] else [])
    ensures forall i :: 0 < i < |e.actions| ==> e.actions[i].GrantRole? || e.actions[i].SendReply?
    ensures forall a :: a in e.actions && a.GrantRole? ==> a == GrantRole(m.guildId, m.authorId, cfg.value.advancedRole)
    ensures cfg.Some? ==> (GrantRole(m.guildId, m.authorId, cfg.value.advancedRole) in e.actions
                           <==> InRegistration(cfg, m) && form.Some? && o.saveOk)
    ensures forall i :: 0 <= i < |e.actions| && e.actions[i].SendReply?
              ==> i == |e.actions| - 1 && e.actions[i].channel == m.channelId
    ensures forall a :: a in e.actions && a.SendReply? ==> a.reply in {SaveFailed, Registered, ManualSubmitted}
    ensures SendReply(m.channelId, SaveFailed) in e.actions <==> InRegistration(cfg, m) && form.Some? && !o.saveOk
    ensures SendReply(m.channelId, Registered) in e.actions
            <==> InRegistration(cfg, m) && form.Some? && o.saveOk && o.grantOk
    ensures SendReply(m.channelId, ManualSubmitted) in e.actions <==> InManual(cfg, m) && request.Some? && o.alertOk
  {
    if cfg.None? then Effects([], [])
    else if m.channelId == cfg.value.registrationChannel then
      match form
      case None => Effects([], [])
      case Some(f) =>
        var save := SaveRegistration(RowFor(m, f));
        if !o.saveOk then
          Effects([save, SendReply(m.channelId, SaveFailed)], [])
        else
          var grant := GrantRole(m.guildId, m.authorId, cfg.value.advancedRole);
          if o.grantOk then
            var actions := [save, grant, SendReply(m.channelId, Registered)];
            Effects(actions, [RowFor(m, f)])
          else Effects([save, grant], [RowFor(m, f)])
    else if m.channelId == cfg.value.manualChannel then
      match request
      case None => Effects([], [])
      case Some(r) =>
        var alert := PostAlert(cfg.value.adminChannel, cfg.value.adminRole, r);
        if o.alertOk then Effects([alert, SendReply(m.channelId, ManualSubmitted)], [])
        else Effects([alert], [])
    else
      Effects([], [])
  }

  /**
    `process_message_worker` for one message and the configuration lookup's result:
    the registration form is read only in the registration channel and the
    review form only in the manual channel (both parsers are pure, so reading
    them up front changes nothing).
   */
  function Process(cfg: Option<GuildConfig>, m: QueuedMessage, o: Outcomes): (e: Effects)
    ensures !InRegistration(cfg, m) && !InManual(cfg, m) ==> e == Effects([], [])
    ensures InRegistration(cfg, m) && ParseForm(m.content).None? ==> e == Effects([], [])
    ensures InManual(cfg, m) && ParseManualForm(m.content).None? ==> e == Effects([], [])
  {
    Respond(cfg, m, ParseForm(m.content), ParseManualForm(m.content), o)
  }

  /** The worker's whole handling of one dequeued message: look the guild up, then process. */
  function Step(table: ConfigTable, m: QueuedMessage, o: Outcomes): (e: Effects)
    ensures AsI64(m.guildId) !in table || !o.lookupOk ==> e == Effects([], [])
    ensures |e.stored| <= 1
    ensures forall a :: a in e.actions ==> !a.WriteConfig?
  {
    Process(GetConfig(table, m.guildId, o.lookupOk), m, o)
  }

  /** The worker over one guild table: each message handled with the outcomes its position meets. */
  function StepAt(table: ConfigTable, env: nat -> Outcomes): (QueuedMessage, nat) -> Effects {
    (m: QueuedMessage, i: nat) => Step(table, m, env(i))
  }

  /**
    Messages handled one after the other, the first at position `start`: the
    effects of each follow those of every message before it.
   */
  function Run(handle: (QueuedMessage, nat) -> Effects, items: seq<QueuedMessage>, start: nat): Effects {
    if items == [] then Effects([], [])
    else
      var n := |items| - 1;
      var before := Run(handle, items[..n], start);
      var last := handle(items[n], start + n);
      Effects(before.actions + last.actions, before.stored + last.stored)
  }

  /** Running `a + b` runs all of `a`, then all of `b` from where `a` ends. */
  lemma {:induction false} RunAppend(handle: (QueuedMessage, nat) -> Effects, a: seq<QueuedMessage>,
                                     b: seq<QueuedMessage>, start: nat)
    ensures Run(handle, a + b, start)
            == Effects(Run(handle, a, start).actions + Run(handle, b, start + |a|).actions,
                       Run(handle, a, start).stored + Run(handle, b, start + |a|).stored)
  {
    if b == [] {
      assert a + b == a;
    } else {
      var n := |b| - 1;
      assert (a + b)[..|a + b| - 1] == a + b[..n];
      assert (a + b)[|a + b| - 1] == b[n];
      RunAppend(handle, a, b[..n], start);
    }
  }

  /**
    Draining the queue: each waiting message handed to the worker in turn, the
    `i`-th meeting the outcomes `env(i)`.
   */
  function Drain(table: ConfigTable, items: seq<QueuedMessage>, env: nat -> Outcomes): Effects {
    Run(StepAt(table, env), items, 0)
  }

  /** Draining one more message appends that message's effects. */
  lemma {:induction false} DrainSnoc(table: ConfigTable, items: seq<QueuedMessage>, m: QueuedMessage, env: nat -> Outcomes)
    ensures Drain(table, items + [m], env)
            == Effects(Drain(table, items, env).actions + Step(table, m, env(|items|)).actions,
                       Drain(table, items, env).stored + Step(table, m, env(|items|)).stored)
  {
    assert (items + [m])[..|items|] == items;
  }

  /**
    A log that already holds the drain of `items` holds the drain of one more
    message once that message's effects are appended to it.
   */
  lemma DrainSnocLogged(table: ConfigTable, items: seq<QueuedMessage>, m: QueuedMessage, env: nat -> Outcomes,
                        log: seq<Action>, rows: seq<Registration>)
    ensures (log + Drain(table, items, env).actions) + Step(table, m, env(|items|)).actions
            == log + Drain(table, items + [m], env).actions
    ensures (rows + Drain(table, items, env).stored) + Step(table, m, env(|items|)).stored
            == rows + Drain(table, items + [m], env).stored
  {
    RunSnocLogged(StepAt(table, env), items, m, log, rows);
  }

  /** `DrainSnocLogged` for any handler, so that no step is unfolded. */
  lemma {:induction false} RunSnocLogged(handle: (QueuedMessage, nat) -> Effects, items: seq<QueuedMessage>, m: QueuedMessage,
                      log: seq<Action>, rows: seq<Registration>)
    ensures (log + Run(handle, items, 0).actions) + handle(m, |items|).actions
            == log + Run(handle, items + [m], 0).actions
    ensures (rows + Run(handle, items, 0).stored) + handle(m, |items|).stored
            == rows + Run(handle, items + [m], 0).stored
  {
    assert (items + [m])[..|items|] == items;
    var before, e := Run(handle, items, 0), handle(m, |items|);
    assert (log + before.actions) + e.actions == log + (before.actions + e.actions);
    assert (rows + before.stored) + e.stored == rows + (before.stored + e.stored);
  }

  /**
    The drain is first in, first out: draining `a + b` does all of `a`, then all
    of `b`, whose outcomes are counted on from where `a` ends.
   */
  lemma {:induction false} DrainAppend(table: ConfigTable, a: seq<QueuedMessage>, b: seq<QueuedMessage>, env: nat -> Outcomes)
    ensures Drain(table, a + b, env).actions
            == Drain(table, a, env).actions + Run(StepAt(table, env), b, |a|).actions
    ensures Drain(table, a + b, env).stored
            == Drain(table, a, env).stored + Run(StepAt(table, env), b, |a|).stored
  {
    RunAppend(StepAt(table, env), a, b, 0);
  }

  /** A message drained alone is handled by one step with the first outcomes. */
  lemma {:induction false} DrainOne(table: ConfigTable, m: QueuedMessage, env: nat -> Outcomes)
    ensures Drain(table, [m], env) == Step(table, m, env(0))
  {
    DrainSnoc(table, [], m, env);
  }

  /** Messages from guilds without a configuration row come out of the queue with no effect. */
  lemma {:induction false} DrainUnconfigured(table: ConfigTable, items: seq<QueuedMessage>, env: nat -> Outcomes)
    requires forall i :: 0 <= i < |items| ==> AsI64(items[i].guildId) !in table
    ensures Drain(table, items, env) == Effects([], [])
  {
    if items != [] {
      var n := |items| - 1;
      assert items == items[..n] + [items[n]];
      DrainSnoc(table, items[..n], items[n], env);
      DrainUnconfigured(table, items[..n], env);
    }
  }

  /** Each drained message stores at most one registration. */
  lemma {:induction false} DrainStored(table: ConfigTable, items: seq<QueuedMessage>, env: nat -> Outcomes)
    ensures |Drain(table, items, env).stored| <= |items|
  {
    if items != [] {
      var n := |items| - 1;
      assert items == items[..n] + [items[n]];
      DrainSnoc(table, items[..n], items[n], env);
      DrainStored(table, items[..n], env);
    }
  }

  /** The worker never writes the configuration table. */
  lemma {:induction false} DrainWritesNoConfig(table: ConfigTable, items: seq<QueuedMessage>, env: nat -> Outcomes)
    ensures forall a :: a in Drain(table, items, env).actions ==> !a.WriteConfig?
  {
    if items != [] {
      var n := |items| - 1;
      assert items == items[..n] + [items[n]];
      DrainSnoc(table, items[..n], items[n], env);
      DrainWritesNoConfig(table, items[..n], env);
    }
  }

  /**
    The form as users are told to write it, in the registration channel: the row
    stored keeps the age's label, since only a label at the very start of the
    piece after the comma is stripped.
   */
  lemma ProcessExample(cfg: GuildConfig, m: QueuedMessage, o: Outcomes)
    requires m.content == "Name: Alice, Age: 30" && m.channelId == cfg.registrationChannel
    requires o.saveOk && o.grantOk
    ensures Process(Some(cfg), m, o).stored == [Registration(AsI64(m.guildId), "Alice", "Age: 30")]
    ensures Process(Some(cfg), m, o).actions
            == [SaveRegistration(Registration(AsI64(m.guildId), "Alice", "Age: 30")),
                GrantRole(m.guildId, m.authorId, cfg.advancedRole),
                SendReply(m.channelId, Registered)]
  {
    ParseFormExampleSpaced(m.content);
    var form := ParseForm(m.content);
    assert Process(Some(cfg), m, o) == Respond(Some(cfg), m, form, ParseManualForm(m.content), o);
    assert InRegistration(Some(cfg), m) && form == Some(("Alice", "Age: 30"));
  }
}
