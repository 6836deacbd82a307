/**
  The per-guild configuration: the five ids the bot works with, the
  guild_configs row they are stored in (SQLite integers are signed, so each id
  goes in `as i64` and comes out `as u64`), the lookup `GuildConfig::get` and
  the `REPLACE INTO` upsert of `!setconfig`.
 */
module Config {
  import opened Wrappers
  import opened Ids

  /** The configuration of one guild, as `GuildConfig::get` hands it to the bot. */
  datatype GuildConfig = GuildConfig(
    registrationChannel: u64,
    manualChannel: u64,
    adminChannel: u64,
    adminRole: u64,
    advancedRole: u64)

  /** The id columns of one guild_configs row. */
  datatype ConfigRow = ConfigRow(
    registrationChannel: i64,
    manualChannel: i64,
    adminChannel: i64,
    adminRole: i64,
    advancedRole: i64)

  /** The guild_configs table, keyed by its guild_id primary key (also stored `as i64`). */
  type ConfigTable = map<i64, ConfigRow>

  /** The row `!setconfig` binds: every id cast `as i64`. */
  function ToRow(c: GuildConfig): (row: ConfigRow)
    ensures FromRow(row) == c
  {
    ConfigRow(AsI64(c.registrationChannel), AsI64(c.manualChannel), AsI64(c.adminChannel),
              AsI64(c.adminRole), AsI64(c.advancedRole))
  }

  /** The configuration `get` builds from a row: every column read as i64 and cast `as u64`. */
  function FromRow(row: ConfigRow): GuildConfig {
    GuildConfig(AsU64(row.registrationChannel), AsU64(row.manualChannel), AsU64(row.adminChannel),
                AsU64(row.adminRole), AsU64(row.advancedRole))
  }

  /** Every stored row is the image of the configuration read from it. */
  lemma ToRowFromRow(row: ConfigRow)
    ensures ToRow(FromRow(row)) == row
  {
    AsU64RoundTrip(row.registrationChannel);
    AsU64RoundTrip(row.manualChannel);
    AsU64RoundTrip(row.adminChannel);
    AsU64RoundTrip(row.adminRole);
    AsU64RoundTrip(row.advancedRole);
  }

  /**
    `GuildConfig::get`: the row for `guild_id as i64`, if the query succeeds and
    finds one. A failed query and a missing row both give None.
   */
  function GetConfig(table: ConfigTable, guildId: u64, queryOk: bool): (r: Option<GuildConfig>)
    ensures r.Some? <==> queryOk && AsI64(guildId) in table
    ensures r.Some? ==> ToRow(r.value) == table[AsI64(guildId)]
  {
    if queryOk && AsI64(guildId) in table then
      var row := table[AsI64(guildId)];
      ToRowFromRow(row);
      Some(FromRow(row))
    else
      None
  }

  /**
    `REPLACE INTO guild_configs`: the guild's whole row becomes `c`; a later `get`
    returns exactly `c`, and no other guild's lookup changes.
   */
  function Upsert(table: ConfigTable, guildId: u64, c: GuildConfig): (t: ConfigTable)
    ensures t.Keys == table.Keys + {AsI64(guildId)}
    ensures GetConfig(t, guildId, true) == Some(c)
    ensures forall g: u64, ok: bool :: g != guildId ==> GetConfig(t, g, ok) == GetConfig(table, g, ok)
  {
    table[AsI64(guildId) := ToRow(c)]
  }

  /** A second upsert for the same guild replaces the first outright: nothing is merged. */
  lemma UpsertTwice(table: ConfigTable, guildId: u64, first: GuildConfig, second: GuildConfig)
    ensures Upsert(Upsert(table, guildId, first), guildId, second) == Upsert(table, guildId, second)
  {
  }
}
