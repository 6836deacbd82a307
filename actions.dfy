/**
  What the bot does to the outside world, as values: chat replies, the
  registrations insert, role grants, the review alert and the config write.
  Each is an attempted call; whether it succeeded is an input to the model.
 */
module Actions {
  import opened Ids
  import opened Config

  /** The bot's fixed reply texts, one constant each. */
  datatype Reply =
    | SaveFailed        // storing the registration failed
    | Registered        // registration stored and role granted
    | ManualSubmitted   // review request passed on to the admins
    | PermissionDenied  // `!setconfig` from a non-administrator
    | Usage             // `!setconfig` with the wrong number of words
    | ConfigSaved       // `!setconfig` stored

  /** One registrations row; the guild id is bound `as i64`. */
  datatype Registration = Registration(guildId: i64, name: string, age: string)

  datatype Action =
    | SendReply(channel: u64, reply: Reply)
    | SaveRegistration(registration: Registration)
    | GrantRole(guild: u64, member: u64, role: u64)
    | PostAlert(channel: u64, mention: u64, request: string)
    | WriteConfig(guildKey: i64, row: ConfigRow)

  datatype ActionKind = ReplyKind | SaveKind | GrantKind | AlertKind | WriteKind

  function KindOf(a: Action): ActionKind {
    match a
    case SendReply(_, _) => ReplyKind
    case SaveRegistration(_) => SaveKind
    case GrantRole(_, _, _) => GrantKind
    case PostAlert(_, _, _) => AlertKind
    case WriteConfig(_, _) => WriteKind
  }

  /** The actions of one kind, in the order they were attempted. */
  function OfKind(actions: seq<Action>, kind: ActionKind): (r: seq<Action>)
    ensures |r| <= |actions|
    ensures forall i :: 0 <= i < |r| ==> KindOf(r[i]) == kind
  {
    if actions == [] then []
    else (if KindOf(actions[0]) == kind then [actions[0]] else []) + OfKind(actions[1..], kind)
  }

  /** Filtering a concatenation filters each part. */
  lemma {:induction false} OfKindAppend(a: seq<Action>, b: seq<Action>, kind: ActionKind)
    ensures OfKind(a + b, kind) == OfKind(a, kind) + OfKind(b, kind)
  {
    if a == [] {
      assert a + b == b;
    } else {
      var head := if KindOf(a[0]) == kind then [a[0]] else [];
      assert (a + b)[1..] == a[1..] + b;
      assert OfKind(a + b, kind) == head + OfKind(a[1..] + b, kind);
      OfKindAppend(a[1..], b, kind);
      assert head + (OfKind(a[1..], kind) + OfKind(b, kind)) == (head + OfKind(a[1..], kind)) + OfKind(b, kind);
    }
  }
}
