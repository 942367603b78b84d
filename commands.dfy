/** The event handlers of src/index.js that drive the stores: `/remind`, the
  * `messageCreate` autoresponder, `/autoresponse add|remove|list` and
  * `/config autorole|modlog set|clear`. Options the user left out are `None`;
  * whether the member is an administrator is the parameter `isAdmin`. */
module Commands {
  import opened Wrappers
  import opened Text
  import Seqs
  import opened TimeParser
  import opened Reminders
  import opened Config
  import opened Scheduling

  // ---------------------------------------------------------------------------
  // /remind

  /** The longest accepted lead time: 365 days in milliseconds. */
  const MaxAheadMs: int := 365 * 24 * 3600 * 1000

  /** The replies of `/remind`. */
  datatype RemindReply =
    | InvalidTime           // "Invalid time. ..."
    | TooFar                // "Max 365 days allowed."
    | PersistFailed         // "Failed to set reminder."
    | ReminderSet(ts: int)  // "Reminder set for <ts>"

  /** The reply `/remind` gives, from the parsed deadline and from whether the
    * store write went through. `!ts` rejects a missing deadline and the deadline 0. */
  function RemindOutcome(whenRaw: Option<string>, now: int, dateParse: string -> Option<int>, addOk: bool): (r: RemindReply) {
    var ts := ParseWhen(whenRaw, now, dateParse);
    if ts.None? || ts.value == 0 then InvalidTime
    else if ts.value - now > MaxAheadMs then TooFar
    else if !addOk then PersistFailed
    else ReminderSet(ts.value)
  }

  /** `/remind when text`: validate the deadline, store the reminder and
    * schedule it. `id` is the fresh id `crypto.randomUUID` draws; `addOk` says
    * whether `addReminder` went through; `env` is what the world answers if the
    * reminder is already due and is delivered at once. */
  method Remind(s: Scheduler, whenRaw: Option<string>, text: string,
                guildId: Option<string>, channelId: Option<string>, userId: string,
                now: int, dateParse: string -> Option<int>, id: string, addOk: bool, env: Env)
    returns (reply: RemindReply, events: seq<Event>)
    requires s.Valid() && id !in Ids(s.store.records)
    modifies s, s.store
    ensures s.Valid()
    ensures reply == RemindOutcome(whenRaw, now, dateParse, addOk)
    ensures !reply.ReminderSet? ==>
      events == [] && s.timers == old(s.timers) && s.store.records == old(s.store.records)
    ensures reply.ReminderSet? ==>
      var rem := Reminder(id, guildId, channelId, userId, text, reply.ts);
      && events == ScheduleEvents(rem, now, env)
      && s.store.records == ScheduleStore(old(s.store.records) + [rem], rem, now, env)
      && s.timers == Arm(old(s.timers), rem, now)
  {
    events := [];
    var ts := ParseWhen(whenRaw, now, dateParse);
    if ts.None? || ts.value == 0 {
      reply := InvalidTime;
      return;
    }
    if ts.value - now > MaxAheadMs {
      reply := TooFar;
      return;
    }
    if !addOk {
      reply := PersistFailed;
      return;
    }
    var rem := Reminder(id, guildId, channelId, userId, text, ts.value);
    FreshIdUnarmed(s.timers, s.store.records, id);
    AppendFreshUnique(s.store.records, rem);
    s.store.AddReminder(rem);
    events := s.Schedule(rem, now, env);
    reply := ReminderSet(ts.value);
  }

  /** What an accepted `/remind` leaves in the store: the new record, unless it
    * was already due and its delivery removed it again. */
  lemma RemindStore(records: seq<Reminder>, rem: Reminder, now: int, env: Env)
    requires rem.id !in Ids(records)
    ensures ScheduleStore(records + [rem], rem, now, env)
         == if rem.ts - now <= 0 && env.removeOk then records else records + [rem]
  {
    RemoveAfterAdd(records, rem);
  }

  /** An accepted `/remind` arms a timer exactly when the deadline lies ahead;
    * a due reminder leaves the timer index as it was. */
  lemma RemindTimers(timers: map<string, Timer>, records: seq<Reminder>, rem: Reminder, now: int)
    requires forall id :: id in timers ==> timers[id].rem.id == id && timers[id].rem in records
    requires rem.id !in Ids(records)
    ensures Arm(timers, rem, now)
         == if rem.ts - now <= 0 then timers else timers[rem.id := Timer(rem, rem.ts - now)]
  {
    if rem.id in timers {
      assert false;
    }
  }

  /** `/remind` accepts exactly the deadlines that parse to a non-zero instant at
    * most 365 days ahead, and only when the store write goes through. */
  lemma RemindAccepts(whenRaw: Option<string>, now: int, dateParse: string -> Option<int>, addOk: bool, ts: int)
    ensures RemindOutcome(whenRaw, now, dateParse, addOk) == ReminderSet(ts)
        <==> ParseWhen(whenRaw, now, dateParse) == Some(ts) && ts != 0 && ts - now <= MaxAheadMs && addOk
  {
  }

  /** `/remind <n>d`: a lead of `n` days is accepted exactly when `n <= 365`. */
  lemma RemindDays(n: nat, now: int, dateParse: string -> Option<int>)
    requires now + n * 86_400_000 != 0
    ensures RemindOutcome(Some(ShowNat(n) + "d"), now, dateParse, true)
         == if n <= 365 then ReminderSet(now + n * 86_400_000) else TooFar
  {
    assert "d" in Units;
    assert Multipliers["d"] == 86_400_000;
    ParseNumeralWithUnit(n, "d", now, dateParse);
  }

  // ---------------------------------------------------------------------------
  // The autoresponder

  /** Rule `a` answers a message whose lower-cased content is `content`: its
    * keyword is not empty and occurs, lower-cased, in the content. */
  predicate Fires(a: Autoresponse, content: string) {
    a.keyword != "" && Includes(content, Lower(a.keyword))
  }

  /** The response of the first rule, in list order, that fires. */
  function Respond(rules: seq<Autoresponse>, content: string): (r: Option<string>) {
    if rules == [] then None
    else if Fires(rules[0], content) then Some(rules[0].response)
    else Respond(rules[1..], content)
  }

  /** The `for ... of cfg.autoresponses` loop: reply with the first rule that
    * fires and stop. */
  method FirstAutoresponse(rules: seq<Autoresponse>, content: string) returns (reply: Option<string>)
    ensures reply == Respond(rules, Lower(content))
  {
    var lowered := Lower(content);
    reply := None;
    var i := 0;
    while i < |rules|
      invariant 0 <= i <= |rules|
      invariant Respond(rules, lowered) == Respond(rules[i..], lowered)
    {
      var ar := rules[i];
      assert rules[i..][0] == ar && rules[i..][1..] == rules[i + 1..];
      if ar.keyword == "" {
        i := i + 1;
        continue;
      }
      if Includes(lowered, Lower(ar.keyword)) {
        reply := Some(ar.response);
        return;
      }
      i := i + 1;
    }
  }

  /** The `messageCreate` handler: bots and direct messages get no answer;
    * otherwise the guild's first matching rule answers. */
  method OnMessage(store: ConfigStore, fromBot: bool, guildId: Option<string>, content: string)
    returns (reply: Option<string>)
    ensures fromBot || guildId.None? ==> reply == None
    ensures !fromBot && guildId.Some? ==>
      reply == Respond(GuildOf(store.guilds, guildId.value).autoresponses, Lower(content))
  {
    if fromBot || guildId.None? {
      return None;
    }
    var cfg := store.GetGuild(guildId.value);
    if |cfg.autoresponses| == 0 {
      return None;
    }
    reply := FirstAutoresponse(cfg.autoresponses, content);
  }

  /** `Respond` answers exactly when some rule fires, and then with the response
    * of the first rule that fires. */
  lemma {:induction false} RespondFirst(rules: seq<Autoresponse>, content: string)
    ensures Respond(rules, content).None? <==> forall i :: 0 <= i < |rules| ==> !Fires(rules[i], content)
    ensures Respond(rules, content).Some? ==>
      exists i :: 0 <= i < |rules| && Fires(rules[i], content)
        && (forall j :: 0 <= j < i ==> !Fires(rules[j], content))
        && Respond(rules, content).value == rules[i].response
  {
    if rules != [] {
      var tail := rules[1..];
      RespondFirst(tail, content);
      assert forall i :: 0 < i < |rules| ==> rules[i] == tail[i - 1];
      if !Fires(rules[0], content) && Respond(tail, content).Some? {
        var i :| 0 <= i < |tail| && Fires(tail[i], content)
          && (forall j :: 0 <= j < i ==> !Fires(tail[j], content))
          && Respond(tail, content).value == tail[i].response;
        assert rules[i + 1] == tail[i];
        assert forall j :: 0 < j < i + 1 ==> rules[j] == tail[j - 1];
      }
    }
  }

  /** A rule appended at the end answers only messages no earlier rule answers. */
  lemma {:induction false} RespondAfterAdd(rules: seq<Autoresponse>, a: Autoresponse, content: string)
    ensures Respond(rules + [a], content)
         == if Respond(rules, content).Some? then Respond(rules, content)
            else if Fires(a, content) then Some(a.response) else None
  {
    if rules == [] {
      assert rules + [a] == [a];
      assert [a][1..] == [];
    } else {
      assert (rules + [a])[0] == rules[0];
      assert (rules + [a])[1..] == rules[1..] + [a];
      RespondAfterAdd(rules[1..], a, content);
    }
  }

  // ---------------------------------------------------------------------------
  // /autoresponse

  /** The filter predicate of `/autoresponse remove`: the keywords differ ignoring case. */
  function KeywordDiffers(keyword: string): (r: Autoresponse -> bool) {
    (a: Autoresponse) => Lower(a.keyword) != Lower(keyword)
  }

  /** The rules that `/autoresponse remove keyword` keeps, in their order. */
  function RemoveKeyword(rules: seq<Autoresponse>, keyword: string): (r: seq<Autoresponse>)
    ensures |r| <= |rules|
  {
    Seqs.Filter(KeywordDiffers(keyword), rules)
  }

  /** Removal keeps exactly the rules whose keyword differs, ignoring case. */
  lemma RemoveKeywordMembers(rules: seq<Autoresponse>, keyword: string)
    ensures forall a :: a in RemoveKeyword(rules, keyword) <==> a in rules && Lower(a.keyword) != Lower(keyword)
  {
    Seqs.FilterMembers(KeywordDiffers(keyword), rules);
  }

  /** Adding a rule and then removing its keyword is the same as only removing the keyword. */
  lemma RemoveUndoesAdd(rules: seq<Autoresponse>, keyword: string, response: string)
    ensures RemoveKeyword(rules + [Autoresponse(keyword, response)], keyword) == RemoveKeyword(rules, keyword)
  {
    var a := Autoresponse(keyword, response);
    Seqs.FilterAppend(KeywordDiffers(keyword), rules, [a]);
    assert [a][1..] == [];
  }

  /** Removing the same keyword twice is removing it once. */
  lemma RemoveKeywordIdempotent(rules: seq<Autoresponse>, keyword: string)
    ensures RemoveKeyword(RemoveKeyword(rules, keyword), keyword) == RemoveKeyword(rules, keyword)
  {
    Seqs.FilterIdempotent(KeywordDiffers(keyword), rules);
  }

  /** The replies of the admin commands; `Listed` carries the list that is shown. */
  datatype AdminReply =
    | AdminOnly
    | RoleRequired
    | ChannelRequired
    | AutoRoleSet(roleId: string)
    | AutoRoleCleared
    | ModLogSet(channelId: string)
    | ModLogCleared
    | Added(keyword: string)
    | Removed(keyword: string)
    | Listed(rules: seq<Autoresponse>)
    | NoReply

  /** `/autoresponse add|remove|list` in guild `g`. */
  method AutoresponseCommand(store: ConfigStore, g: string, isAdmin: bool, sub: string, keyword: string, response: string)
    returns (reply: AdminReply)
    modifies store
    ensures var cfg := GuildOf(old(store.guilds), g);
      if !isAdmin then reply == AdminOnly && store.guilds == old(store.guilds)
      else if sub == "add" then
        reply == Added(keyword)
        && store.guilds == old(store.guilds)[g := cfg.(autoresponses := cfg.autoresponses + [Autoresponse(keyword, response)])]
      else if sub == "remove" then
        reply == Removed(keyword)
        && store.guilds == old(store.guilds)[g := cfg.(autoresponses := RemoveKeyword(cfg.autoresponses, keyword))]
      else if sub == "list" then reply == Listed(cfg.autoresponses) && store.guilds == old(store.guilds)
      else reply == NoReply && store.guilds == old(store.guilds)
  {
    if !isAdmin {
      return AdminOnly;
    }
    var cfg := store.GetGuild(g);
    if sub == "add" {
      cfg := cfg.(autoresponses := cfg.autoresponses + [Autoresponse(keyword, response)]);
      store.SetGuild(g, cfg);
      reply := Added(keyword);
    } else if sub == "remove" {
      cfg := cfg.(autoresponses := RemoveKeyword(cfg.autoresponses, keyword));
      store.SetGuild(g, cfg);
      reply := Removed(keyword);
    } else if sub == "list" {
      reply := Listed(cfg.autoresponses);
    } else {
      reply := NoReply;
    }
  }

  // ---------------------------------------------------------------------------
  // /config

  /** `/config autorole|modlog set|clear` in guild `g`; `roleId`/`channelId` are
    * the optional role and channel options. */
  method ConfigCommand(store: ConfigStore, g: string, isAdmin: bool, sub: string, action: string,
                       roleId: Option<string>, channelId: Option<string>)
    returns (reply: AdminReply)
    modifies store
    ensures var cfg := GuildOf(old(store.guilds), g);
      if !isAdmin then reply == AdminOnly && store.guilds == old(store.guilds)
      else if sub == "autorole" && action == "set" then
        if roleId.None? then reply == RoleRequired && store.guilds == old(store.guilds)
        else reply == AutoRoleSet(roleId.value) && store.guilds == old(store.guilds)[g := cfg.(autoRole := roleId)]
      else if sub == "autorole" && action == "clear" then
        reply == AutoRoleCleared && store.guilds == old(store.guilds)[g := cfg.(autoRole := None)]
      else if sub == "modlog" && action == "set" then
        if channelId.None? then reply == ChannelRequired && store.guilds == old(store.guilds)
        else reply == ModLogSet(channelId.value) && store.guilds == old(store.guilds)[g := cfg.(modLog := channelId)]
      else if sub == "modlog" && action == "clear" then
        reply == ModLogCleared && store.guilds == old(store.guilds)[g := cfg.(modLog := None)]
      else reply == NoReply && store.guilds == old(store.guilds)
  {
    if !isAdmin {
      return AdminOnly;
    }
    if sub == "autorole" {
      if action == "set" {
        if roleId.None? {
          return RoleRequired;
        }
        var cfg := store.GetGuild(g);
        cfg := cfg.(autoRole := roleId);
        store.SetGuild(g, cfg);
        return AutoRoleSet(roleId.value);
      } else if action == "clear" {
        var cfg := store.GetGuild(g);
        cfg := cfg.(autoRole := None);
        store.SetGuild(g, cfg);
        return AutoRoleCleared;
      }
    }
    if sub == "modlog" {
      if action == "set" {
        if channelId.None? {
          return ChannelRequired;
        }
        var cfg := store.GetGuild(g);
        cfg := cfg.(modLog := channelId);
        store.SetGuild(g, cfg);
        return ModLogSet(channelId.value);
      } else if action == "clear" {
        var cfg := store.GetGuild(g);
        cfg := cfg.(modLog := None);
        store.SetGuild(g, cfg);
        return ModLogCleared;
      }
    }
    return NoReply;
  }

  /** Setting one field of a guild's record and then clearing it leaves the record
    * as clearing alone would; the other fields and the other guilds keep their values. */
  lemma SetThenClearAutoRole(m: map<string, GuildConfig>, g: string, role: string, h: string)
    ensures var m1 := m[g := GuildOf(m, g).(autoRole := Some(role))];
      var m2 := m1[g := GuildOf(m1, g).(autoRole := None)];
      && GuildOf(m2, g) == GuildOf(m, g).(autoRole := None)
      && (h != g ==> GuildOf(m2, h) == GuildOf(m, h))
  {
    GetAfterSet(m, g, GuildOf(m, g).(autoRole := Some(role)), h);
  }
}
