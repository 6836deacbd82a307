/**
  `handle_setconfig`: the administrator check, the six-word arity check, the
  five `u64` parses that stop at the first failure, the `REPLACE INTO` write
  and the confirmation reply. The calls to Discord and SQLite are inputs
  (`CommandCalls`); what the command attempts is its list of actions.
 */
module Command {
  import opened Wrappers
  import opened RustStr
  import opened Ids
  import opened Config
  import opened Actions

  /** What the words of a `!setconfig` message give. */
  datatype SetConfigArgs =
    | WrongArity               // not exactly six words
    | BadId(position: nat)     // the first word (1 to 5) that is not a `u64`
    | Ids(config: GuildConfig) // all five ids

  /** The id a word position (1 to 5) sets. */
  function IdAt(c: GuildConfig, position: nat): u64
    requires 1 <= position <= 5
  {
    match position
    case 1 => c.registrationChannel
    case 2 => c.manualChannel
    case 3 => c.adminChannel
    case 4 => c.adminRole
    case 5 => c.advancedRole
  }

  /**
    The parses of words 1 to 5 of a six-word command, taken in order; the first
    failure is reported by its position. Word 0 (the command itself) is never looked at.
   */
  function FirstBadId(parsed: seq<Option<u64>>): (r: SetConfigArgs)
    requires |parsed| == 5
    ensures !r.WrongArity?
    ensures r.BadId? ==> 1 <= r.position <= 5 && parsed[r.position - 1].None?
                         && forall j :: 0 <= j < r.position - 1 ==> parsed[j].Some?
    ensures r.Ids? ==> forall j :: 1 <= j <= 5 ==> parsed[j - 1] == Some(IdAt(r.config, j))
  {
    if parsed[0].None? then BadId(1)
    else if parsed[1].None? then BadId(2)
    else if parsed[2].None? then BadId(3)
    else if parsed[3].None? then BadId(4)
    else if parsed[4].None? then BadId(5)
    else Ids(GuildConfig(parsed[0].value, parsed[1].value, parsed[2].value, parsed[3].value, parsed[4].value))
  }

  /** The ids of a command's words: each of words 1 to 5 parsed as a `u64`. */
  function ParseIds(words: seq<string>): (parsed: seq<Option<u64>>)
    requires |words| == 6
    ensures |parsed| == 5 && forall j :: 1 <= j <= 5 ==> parsed[j - 1] == ParseU64(words[j])
  {
    seq(5, k requires 0 <= k < 5 => ParseU64(words[k + 1]))
  }

  /**
    The validation of `handle_setconfig` after the permission check: exactly six
    whitespace-separated words, then the five ids.
   */
  function ParseSetConfig(content: string): (r: SetConfigArgs)
    ensures r.WrongArity? <==> |SplitWhitespace(content)| != 6
    ensures r.BadId? ==> 1 <= r.position <= 5
                         && ParseU64(SplitWhitespace(content)[r.position]).None?
                         && forall j :: 1 <= j < r.position ==> ParseU64(SplitWhitespace(content)[j]).Some?
    ensures r.Ids? ==> forall j :: 1 <= j <= 5 ==> ParseU64(SplitWhitespace(content)[j]) == Some(IdAt(r.config, j))
  {
    var words := SplitWhitespace(content);
    if |words| != 6 then WrongArity else FirstBadId(ParseIds(words))
  }

  /** A command word followed by the decimal renderings of five ids parses to those ids, whatever the first word is. */
  lemma ParseSetConfigOf(command: string, c: GuildConfig)
    requires command != [] && NoWhitespace(command)
    ensures ParseSetConfig(Unwords([command, ToDecimal(c.registrationChannel), ToDecimal(c.manualChannel),
                                    ToDecimal(c.adminChannel), ToDecimal(c.adminRole), ToDecimal(c.advancedRole)]))
            == Ids(c)
  {
    var words := [command, ToDecimal(c.registrationChannel), ToDecimal(c.manualChannel),
                  ToDecimal(c.adminChannel), ToDecimal(c.adminRole), ToDecimal(c.advancedRole)];
    forall k | 1 <= k < 6 ensures NoWhitespace(words[k]) {
      var w := words[k];
      forall i | 0 <= i < |w| ensures !IsWhitespace(w[i]) {
        assert IsDigit(w[i]);
      }
    }
    SplitUnwords(words);
    ParseU64RoundTrip(c.registrationChannel);
    ParseU64RoundTrip(c.manualChannel);
    ParseU64RoundTrip(c.adminChannel);
    ParseU64RoundTrip(c.adminRole);
    ParseU64RoundTrip(c.advancedRole);
  }

  /** The outcomes of the Discord and SQLite calls the command makes. */
  datatype CommandCalls = CommandCalls(
    memberOk: bool,       // fetching the invoking member
    permissionsOk: bool,  // computing its permissions
    isAdmin: bool,        // whether they include administrator
    writeOk: bool,        // the REPLACE INTO statement
    replyOk: bool)        // the one reply the command sends

  /** The error `handle_setconfig` returns (its caller only prints it). */
  datatype CommandError =
    | MemberLookupFailed
    | PermissionsFailed
    | InvalidId(position: nat)
    | StoreFailed
    | ReplyFailed

  /** What one `!setconfig` did: its result, the calls it attempted, and the table afterwards. */
  datatype CommandRun = CommandRun(result: Result<(), CommandError>, actions: seq<Action>, table: ConfigTable)

  predicate Authorised(calls: CommandCalls) {
    calls.memberOk && calls.permissionsOk && calls.isAdmin
  }

  /** The result after a reply: the reply's own error, propagated by `?`. */
  function AfterReply(calls: CommandCalls): (r: Result<(), CommandError>)
    ensures r.Success? <==> calls.replyOk
    ensures r.Failure? ==> r.error == ReplyFailed
  {
    if calls.replyOk then Success(()) else Failure(ReplyFailed)
  }

  /**
    `handle_setconfig` once the words are parsed, as one function of the table
    before and the call outcomes. The table changes only on the path where every
    check passes and the write succeeds, and then exactly as `Upsert` says.
   */
  function Execute(table: ConfigTable, guildId: u64, channelId: u64, args: SetConfigArgs,
                   calls: CommandCalls): (run: CommandRun)
    ensures run.table == (if Authorised(calls) && args.Ids? && calls.writeOk
                          then Upsert(table, guildId, args.config) else table)
    ensures !calls.memberOk || !calls.permissionsOk
            ==> run.actions == [] && run.result == Failure(if !calls.memberOk then MemberLookupFailed else PermissionsFailed)
    ensures calls.memberOk && calls.permissionsOk && !calls.isAdmin
            ==> run.actions == [SendReply(channelId, PermissionDenied)] && run.result == AfterReply(calls)
    ensures Authorised(calls) && args.WrongArity?
            ==> run.actions == [SendReply(channelId, Usage)] && run.result == AfterReply(calls)
    ensures Authorised(calls) && args.BadId?
            ==> run.actions == [] && run.result == Failure(InvalidId(args.position))
    ensures Authorised(calls) && args.Ids?
            ==> var write := WriteConfig(AsI64(guildId), ToRow(args.config));
                run.actions == (if calls.writeOk then [write, SendReply(channelId, ConfigSaved)] else [write])
                && run.result == (if calls.writeOk then AfterReply(calls) else Failure(StoreFailed))
  {
    if !calls.memberOk then CommandRun(Failure(MemberLookupFailed), [], table)
    else if !calls.permissionsOk then CommandRun(Failure(PermissionsFailed), [], table)
    else if !calls.isAdmin then CommandRun(AfterReply(calls), [SendReply(channelId, PermissionDenied)], table)
    else match args
      case WrongArity => CommandRun(AfterReply(calls), [SendReply(channelId, Usage)], table)
      case BadId(p) => CommandRun(Failure(InvalidId(p)), [], table)
      case Ids(c) =>
        var write := WriteConfig(AsI64(guildId), ToRow(c));
        if !calls.writeOk then CommandRun(Failure(StoreFailed), [write], table)
        else CommandRun(AfterReply(calls), [write, SendReply(channelId, ConfigSaved)], Upsert(table, guildId, c))
  }

  /**
    Across all paths of `handle_setconfig`: a write is attempted exactly when every
    check passes, at most one reply is sent, always to the command's channel, and
    success means exactly one reply, which succeeded.
   */
  lemma ExecuteCalls(table: ConfigTable, guildId: u64, channelId: u64, args: SetConfigArgs, calls: CommandCalls)
    ensures var run := Execute(table, guildId, channelId, args, calls);
            && (OfKind(run.actions, WriteKind) != [] <==> Authorised(calls) && args.Ids?)
            && |OfKind(run.actions, ReplyKind)| <= 1
            && (forall a :: a in run.actions && a.SendReply? ==> a.channel == channelId)
            && (run.result.Success? ==> calls.replyOk && |OfKind(run.actions, ReplyKind)| == 1)
  {
    if Authorised(calls) && args.Ids? && calls.writeOk {
      var write := WriteConfig(AsI64(guildId), ToRow(args.config));
      var reply := SendReply(channelId, ConfigSaved);
      assert [write, reply] == [write] + [reply];
      OfKindAppend([write], [reply], ReplyKind);
      OfKindAppend([write], [reply], WriteKind);
    }
  }

  /**
    `handle_setconfig`: the permission check comes before the words are looked at,
    so a non-administrator gets the refusal whatever they wrote.
   */
  function RunSetConfig(table: ConfigTable, guildId: u64, channelId: u64, content: string,
                        calls: CommandCalls): (run: CommandRun)
    ensures !Authorised(calls) ==> run.table == table && OfKind(run.actions, WriteKind) == []
    ensures !Authorised(calls) ==> run == Execute(table, guildId, channelId, WrongArity, calls)
  {
    Execute(table, guildId, channelId, ParseSetConfig(content), calls)
  }

  /**
    After a successful `!setconfig`, looking the guild up returns exactly the five
    ids given, and every other guild's lookup is as before.
   */
  lemma SetConfigReadBack(table: ConfigTable, guildId: u64, channelId: u64, content: string,
                          calls: CommandCalls, other: u64, queryOk: bool)
    requires Authorised(calls) && calls.writeOk && ParseSetConfig(content).Ids?
    ensures GetConfig(RunSetConfig(table, guildId, channelId, content, calls).table, guildId, true)
            == Some(ParseSetConfig(content).config)
    ensures other != guildId
            ==> GetConfig(RunSetConfig(table, guildId, channelId, content, calls).table, other, queryOk)
                == GetConfig(table, other, queryOk)
  {
  }

  /** The words `1 2 3 4 5` after any command word carry the ids 1 to 5. */
  lemma SetConfigExampleWords(command: string)
    requires command != [] && NoWhitespace(command)
    ensures ParseSetConfig(command + " 1 2 3 4 5") == Ids(GuildConfig(1, 2, 3, 4, 5))
  {
    var digits := [ToDecimal(1), ToDecimal(2), ToDecimal(3), ToDecimal(4), ToDecimal(5)];
    DigitsOneToFive();
    assert ([command] + digits)[1..] == digits;
    assert Unwords([command] + digits) == command + " 1 2 3 4 5";
    ParseSetConfigOf(command, GuildConfig(1, 2, 3, 4, 5));
  }

  /** The ids of the example, written out in decimal and joined by spaces. */
  lemma DigitsOneToFive()
    ensures Unwords([ToDecimal(1), ToDecimal(2), ToDecimal(3), ToDecimal(4), ToDecimal(5)]) == "1 2 3 4 5"
  {
    var digits := [ToDecimal(1), ToDecimal(2), ToDecimal(3), ToDecimal(4), ToDecimal(5)];
    assert digits == ["1", "2", "3", "4", "5"];
  }

  /** `!setconfig 1 2 3 4 5`: denied for a non-administrator, stored for an administrator. */
  lemma SetConfigExample(table: ConfigTable, guildId: u64, channelId: u64, content: string, calls: CommandCalls)
    requires content == "!setconfig 1 2 3 4 5" || content == "!setconfigX 1 2 3 4 5"
    requires calls.memberOk && calls.permissionsOk && calls.writeOk
    ensures !calls.isAdmin ==> RunSetConfig(table, guildId, channelId, content, calls)
                               == CommandRun(AfterReply(calls), [SendReply(channelId, PermissionDenied)], table)
    ensures calls.isAdmin ==> RunSetConfig(table, guildId, channelId, content, calls).table
                              == Upsert(table, guildId, GuildConfig(1, 2, 3, 4, 5))
    ensures calls.isAdmin ==> RunSetConfig(table, guildId, channelId, content, calls).actions
                              == [WriteConfig(AsI64(guildId), ConfigRow(1, 2, 3, 4, 5)), SendReply(channelId, ConfigSaved)]
  {
    if content == "!setconfig 1 2 3 4 5" {
      assert content == "!setconfig" + " 1 2 3 4 5";
      SetConfigExampleWords("!setconfig");
    } else {
      assert content == "!setconfigX" + " 1 2 3 4 5";
      SetConfigExampleWords("!setconfigX");
    }
  }
}
