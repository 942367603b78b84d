/** src/config.js: per-guild configuration, a map from guild id to a record,
  * held in one JSON object that every write replaces as a whole. */
module Config {
  import opened Wrappers

  /** One `{keyword, response}` entry of a guild's autoresponse list. */
  datatype Autoresponse = Autoresponse(keyword: string, response: string)

  /** A guild's record: the auto-assigned role, the moderation-log channel and the
    * autoresponses in insertion order. `None` stands for a `null` or missing field. */
  datatype GuildConfig = GuildConfig(
    autoRole: Option<string>,
    modLog: Option<string>,
    autoresponses: seq<Autoresponse>)

  /** `{ autoRole: null, autoresponses: [] }`, what `getGuild` returns for a guild without a record. */
  const DefaultConfig := GuildConfig(None, None, [])

  /** The record `getGuild` reads for guild `g` from the stored object `m`. */
  function GuildOf(m: map<string, GuildConfig>, g: string): (r: GuildConfig) {
    if g in m then m[g] else DefaultConfig
  }

  class ConfigStore {
    /** The contents of the config file. */
    var guilds: map<string, GuildConfig>

    /** A store whose file does not exist yet reads as the empty object. */
    constructor ()
      ensures guilds == map[]
    {
      guilds := map[];
    }

    /** `getGuild`: the stored record, or the default one; nothing is written. */
    method GetGuild(g: string) returns (cfg: GuildConfig)
      ensures g in guilds ==> cfg == guilds[g]
      ensures g !in guilds ==> cfg == DefaultConfig
    {
      var all := guilds;
      if g in all {
        cfg := all[g];
      } else {
        cfg := DefaultConfig;
      }
    }

    /** `setGuild`: read the object, overwrite the guild's entry, write it back. */
    method SetGuild(g: string, value: GuildConfig)
      modifies this
      ensures guilds == old(guilds)[g := value]
    {
      var all := guilds;
      all := all[g := value];
      guilds := all;
    }
  }

  // ---------------------------------------------------------------------------
  // Properties of the guild map

  /** Reading back a guild just written gives the value written; every other guild
    * reads as before. */
  lemma GetAfterSet(m: map<string, GuildConfig>, g: string, v: GuildConfig, h: string)
    ensures GuildOf(m[g := v], g) == v
    ensures h != g ==> GuildOf(m[g := v], h) == GuildOf(m, h)
  {
  }

  /** A second write to the same guild replaces the first. */
  lemma SetOverwrites(m: map<string, GuildConfig>, g: string, v: GuildConfig, w: GuildConfig)
    ensures m[g := v][g := w] == m[g := w]
  {
  }
}
