/** The reminder scheduler and dispatcher of src/index.js: `scheduleReminder`,
  * `deliverReminder` and the startup loop of the `clientReady` handler.
  *
  * `setTimeout` becomes an entry of `timers` (the source's `scheduledTimers`
  * index, which maps a reminder id to its timer); a timer's expiry is the
  * explicit step `Fire`. The messaging client's answers during one delivery (is
  * the channel there, did the send go through, ...) are the parameter `env`, so
  * every combination of successes and failures is covered. */
module Scheduling {
  import opened Wrappers
  import opened Reminders
  import Seqs

  /** What the outside world answers during one delivery. `channelSendable`:
    * `channels.fetch` found a channel that has `send`; `userFound`: `users.fetch`
    * found the user; the `...Ok` flags say whether a send was accepted;
    * `removeOk`: the store write in the `finally` block went through. */
  datatype Env = Env(
    channelSendable: bool,
    channelSendOk: bool,
    userFound: bool,
    dmSendOk: bool,
    removeOk: bool)

  /** The calls a delivery makes on the messaging client, with their outcomes. */
  datatype Event =
    | ChannelFetched(channelId: string, sendable: bool)
    | ChannelSent(channelId: string, content: string, ok: bool)
    | UserFetched(userId: string, found: bool)
    | DmSent(userId: string, content: string, ok: bool)

  /** An armed `setTimeout(() => deliverReminder(rem), delay)`. */
  datatype Timer = Timer(rem: Reminder, delay: int)

  /** `if (rem.channelId)`: the id is present and not the empty string. */
  predicate HasChannel(rem: Reminder) {
    rem.channelId.Some? && rem.channelId.value != ""
  }

  function ChannelContent(rem: Reminder): (r: string) {
    "<@" + rem.userId + "> Reminder: " + rem.text
  }

  function DmContent(rem: Reminder): (r: string) {
    "Reminder: " + rem.text
  }

  /** The client calls of `deliverReminder(rem)`: first the origin channel (only
    * when the reminder has one), then, in every case, the direct message. */
  function DeliveryAttempts(rem: Reminder, env: Env): (r: seq<Event>) {
    (if HasChannel(rem) then
       [ChannelFetched(rem.channelId.value, env.channelSendable)] +
       (if env.channelSendable then [ChannelSent(rem.channelId.value, ChannelContent(rem), env.channelSendOk)] else [])
     else [])
    + [UserFetched(rem.userId, env.userFound)]
    + (if env.userFound then [DmSent(rem.userId, DmContent(rem), env.dmSendOk)] else [])
  }

  /** The store after the `finally` block of `deliverReminder`: the record is
    * removed when the write goes through and stays otherwise. */
  function Cleanup(records: seq<Reminder>, id: string, removeOk: bool): (r: seq<Reminder>) {
    if removeOk then WithoutId(records, id) else records
  }

  /** The client calls of `scheduleReminder(rem)`: a due reminder is delivered at once. */
  function ScheduleEvents(rem: Reminder, now: int, env: Env): (r: seq<Event>) {
    if rem.ts - now <= 0 then DeliveryAttempts(rem, env) else []
  }

  /** The store after `scheduleReminder(rem)`. */
  function ScheduleStore(records: seq<Reminder>, rem: Reminder, now: int, env: Env): (r: seq<Reminder>) {
    if rem.ts - now <= 0 then Cleanup(records, rem.id, env.removeOk) else records
  }

  /** The delivery events of the startup loop: one delivery per overdue record, in store order. */
  function StartupAttempts(all: seq<Reminder>, now: int, env: string -> Env): (r: seq<Event>) {
    if all == [] then []
    else
      var last := all[|all| - 1];
      StartupAttempts(all[..|all| - 1], now, env) + ScheduleEvents(last, now, env(last.id))
  }

  /** Whether a record survives the startup loop: it is not yet due, or its removal failed. */
  predicate Survives(r: Reminder, now: int, env: string -> Env) {
    !(r.ts - now <= 0 && env(r.id).removeOk)
  }

  /** `Survives` as a filter predicate. */
  function StartupKeeps(now: int, env: string -> Env): (r: Reminder -> bool) {
    (r: Reminder) => Survives(r, now, env)
  }

  /** The store left by the startup loop, one record at a time in store order. */
  function StartupRemaining(all: seq<Reminder>, now: int, env: string -> Env): (r: seq<Reminder>) {
    if all == [] then []
    else
      var last := all[|all| - 1];
      StartupRemaining(all[..|all| - 1], now, env) + (if Survives(last, now, env) then [last] else [])
  }

  /** The timer index left by the startup loop, one record at a time in store order. */
  function StartupTimers(all: seq<Reminder>, now: int): (r: map<string, Timer>) {
    if all == [] then map[]
    else
      var last := all[|all| - 1];
      Arm(StartupTimers(all[..|all| - 1], now), last, now)
  }

  /** After scheduling the first `i` stored records: exactly the future ones
    * among them have a timer, armed for the record with its remaining delay,
    * and no other timer exists. */
  predicate ArmedUpTo(timers: map<string, Timer>, all: seq<Reminder>, i: nat, now: int)
    requires i <= |all|
  {
    && (forall k :: 0 <= k < i ==>
         (all[k].id in timers <==> all[k].ts - now > 0) &&
         (all[k].id in timers ==> timers[all[k].id] == Timer(all[k], all[k].ts - now)))
    && timers.Keys <= Ids(all[..i])
  }

  /** The timer index after `scheduleReminder(rem)`: a due reminder leaves no
    * timer under its id, a future one has a timer for its remaining delay. */
  function Arm(timers: map<string, Timer>, rem: Reminder, now: int): (r: map<string, Timer>) {
    if rem.ts - now <= 0 then timers - {rem.id} else timers[rem.id := Timer(rem, rem.ts - now)]
  }

  class Scheduler {
    /** The reminder store this process owns. */
    const store: ReminderStore
    /** `scheduledTimers`: reminder id to the timer armed for it. */
    var timers: map<string, Timer>

    /** The index is a subset of the store: every timer belongs to a stored
      * reminder filed under that reminder's id; stored ids are unique. */
    ghost predicate Valid()
      reads this, store
    {
      && UniqueIds(store.records)
      && forall id :: id in timers ==> timers[id].rem.id == id && timers[id].rem in store.records
    }

    /** A fresh process: no timers yet, over whatever the store holds. */
    constructor (store: ReminderStore)
      requires UniqueIds(store.records)
      ensures Valid()
      ensures this.store == store && timers == map[]
    {
      this.store := store;
      timers := map[];
    }

    /** `deliverReminder(rem)`: try the origin channel, then the direct message,
      * swallowing every failure; then, whatever happened, remove the record from
      * the store and drop the timer. */
    method Deliver(rem: Reminder, env: Env) returns (events: seq<Event>)
      requires Valid()
      modifies this, store
      ensures Valid()
      ensures events == DeliveryAttempts(rem, env)
      ensures timers == old(timers) - {rem.id}
      ensures store.records == Cleanup(old(store.records), rem.id, env.removeOk)
    {
      events := [];
      // 1) the origin channel, if the reminder has one
      if HasChannel(rem) {
        var channelId := rem.channelId.value;
        events := events + [ChannelFetched(channelId, env.channelSendable)];
        if env.channelSendable {
          events := events + [ChannelSent(channelId, ChannelContent(rem), env.channelSendOk)];
        }
      }
      // 2) the direct message, always attempted
      events := events + [UserFetched(rem.userId, env.userFound)];
      if env.userFound {
        events := events + [DmSent(rem.userId, DmContent(rem), env.dmSendOk)];
      }
      // finally: cleanup
      if env.removeOk {
        store.RemoveReminder(rem.id);
        WithoutIdUnique(old(store.records), rem.id);
        WithoutIdMembers(old(store.records), rem.id);
      }
      if rem.id in timers {
        timers := timers - {rem.id};
      }
    }

    /** `scheduleReminder(rem)`: a reminder that is already due is delivered at
      * once and arms nothing; otherwise one timer is armed under its id. The id
      * must not be armed yet: a second `setTimeout` would leave the first timer
      * running untracked, which the index cannot represent. */
    method Schedule(rem: Reminder, now: int, env: Env) returns (events: seq<Event>)
      requires Valid() && rem in store.records && rem.id !in timers
      modifies this, store
      ensures Valid()
      ensures events == ScheduleEvents(rem, now, env)
      ensures timers == Arm(old(timers), rem, now)
      ensures store.records == ScheduleStore(old(store.records), rem, now, env)
    {
      var delay := rem.ts - now;
      if delay <= 0 {
        events := Deliver(rem, env);
        return;
      }
      timers := timers[rem.id := Timer(rem, delay)];
      events := [];
    }

    /** A timer expires: its callback delivers the reminder it was armed for. */
    method Fire(id: string, env: Env) returns (events: seq<Event>)
      requires Valid() && id in timers
      modifies this, store
      ensures Valid()
      ensures var rem := old(timers[id].rem);
        && events == DeliveryAttempts(rem, env)
        && id !in timers
        && timers == old(timers) - {id}
        && store.records == Cleanup(old(store.records), id, env.removeOk)
    {
      events := Deliver(timers[id].rem, env);
    }

    /** The `clientReady` handler: read every stored reminder and schedule each
      * one, in store order; returns the count it logs. */
    method Startup(now: int, env: string -> Env) returns (count: nat, events: seq<Event>)
      requires Valid() && timers == map[]
      modifies this, store
      ensures Valid()
      ensures count == |old(store.records)|
      ensures events == StartupAttempts(old(store.records), now, env)
      ensures store.records == StartupRemaining(old(store.records), now, env)
      ensures timers == StartupTimers(old(store.records), now)
      ensures forall r :: r in old(store.records) ==>
        (r.id in timers <==> r.ts - now > 0) && (r.id in timers ==> timers[r.id] == Timer(r, r.ts - now))
      ensures timers.Keys <= Ids(old(store.records))
    {
      var all := store.ReadAll();
      events := [];
      var i := 0;
      while i < |all|
        invariant 0 <= i <= |all|
        invariant Valid()
        invariant all == old(store.records) && UniqueIds(all)
        invariant store.records == StartupRemaining(all[..i], now, env) + all[i..]
        invariant events == StartupAttempts(all[..i], now, env)
        invariant timers == StartupTimers(all[..i], now)
      {
        var r := all[i];
        ghost var before := store.records;
        assert r in store.records by { SplitAt(all, i); }
        NotYetArmed(all, i, now);
        var ev := Schedule(r, now, env(r.id));
        assert store.records == StartupRemaining(all[..i + 1], now, env) + all[i + 1..] by {
          StoreStep(all, i, now, env, before, store.records);
        }
        assert timers == StartupTimers(all[..i + 1], now) by {
          TimersPrefixStep(all, i, now);
        }
        assert events + ev == StartupAttempts(all[..i + 1], now, env) by {
          AttemptsStep(all, i, now, env);
        }
        events := events + ev;
        i := i + 1;
      }
      assert all[..i] == all;
      ArmedPrefix(all, |all|, now);
      ArmedAll(timers, all, now);
      count := |all|;
    }
  }

  /** The direct message is attempted on every delivery, whatever happened to
    * the channel attempt; it is sent exactly when the user was found. */
  lemma DeliveryTriesDm(rem: Reminder, env: Env)
    ensures UserFetched(rem.userId, env.userFound) in DeliveryAttempts(rem, env)
    ensures env.userFound <==> DmSent(rem.userId, DmContent(rem), env.dmSendOk) in DeliveryAttempts(rem, env)
  {
    var attempts := DeliveryAttempts(rem, env);
    if !env.userFound {
      assert forall e :: e in attempts ==> !e.DmSent?;
    }
  }

  /** The origin channel is fetched exactly when the reminder has one, and then
    * before anything else; otherwise the delivery starts with the user fetch. */
  lemma DeliveryTriesChannel(rem: Reminder, env: Env)
    ensures (exists e :: e in DeliveryAttempts(rem, env) && e.ChannelFetched?) <==> HasChannel(rem)
    ensures HasChannel(rem) ==> DeliveryAttempts(rem, env)[0] == ChannelFetched(rem.channelId.value, env.channelSendable)
    ensures !HasChannel(rem) ==> DeliveryAttempts(rem, env)[0] == UserFetched(rem.userId, env.userFound)
  {
    var attempts := DeliveryAttempts(rem, env);
    if HasChannel(rem) {
      assert attempts[0] in attempts;
    } else {
      assert forall e :: e in attempts ==> !e.ChannelFetched?;
    }
  }

  /** The cleanup of `deliverReminder`: when the store write goes through, no
    * record with the id is left and every other record stays in its order;
    * when it fails, the store is as it was. */
  lemma CleanupRemovesId(records: seq<Reminder>, id: string, removeOk: bool)
    ensures removeOk ==> id !in Ids(Cleanup(records, id, removeOk))
    ensures removeOk ==> forall x :: x in Cleanup(records, id, removeOk) <==> x in records && x.id != id
    ensures !removeOk ==> Cleanup(records, id, removeOk) == records
  {
    WithoutIdMembers(records, id);
  }

  /** One round of the startup loop on the event log and on the store. */
  lemma AttemptsStep(all: seq<Reminder>, i: nat, now: int, env: string -> Env)
    requires i < |all|
    ensures StartupAttempts(all[..i + 1], now, env)
      == StartupAttempts(all[..i], now, env) + ScheduleEvents(all[i], now, env(all[i].id))
    ensures StartupRemaining(all[..i + 1], now, env)
      == StartupRemaining(all[..i], now, env) + (if Survives(all[i], now, env) then [all[i]] else [])
  {
    assert all[..i + 1][..i] == all[..i];
  }

  /** When the startup loop reaches record `i`, its id has no timer yet: the
    * earlier rounds only armed the earlier records, whose ids all differ. */
  lemma NotYetArmed(all: seq<Reminder>, i: nat, now: int)
    requires UniqueIds(all) && i < |all|
    ensures all[i].id !in StartupTimers(all[..i], now)
  {
    ArmedPrefix(all, i, now);
    IdOnlyAt(all, i, all[..i]);
  }

  /** An id that no stored record carries has no timer: the index only files
    * stored reminders under their own ids. */
  lemma FreshIdUnarmed(timers: map<string, Timer>, records: seq<Reminder>, id: string)
    requires forall k :: k in timers ==> timers[k].rem.id == k && timers[k].rem in records
    requires id !in Ids(records)
    ensures id !in timers
  {
  }

  /** One round of the startup loop on the timer index. */
  lemma TimersPrefixStep(all: seq<Reminder>, i: nat, now: int)
    requires i < |all|
    ensures StartupTimers(all[..i + 1], now) == Arm(StartupTimers(all[..i], now), all[i], now)
  {
    assert all[..i + 1][..i] == all[..i];
  }

  /** The suffix from `i` is record `i` followed by the rest. Kept as a lemma:
    * proved inside the startup loop's context, the same fact is far costlier. */
  lemma SplitAt(all: seq<Reminder>, i: nat)
    requires i < |all|
    ensures all[i..] == [all[i]] + all[i + 1..]
  {
  }

  /** A record that stays moves from the untouched suffix to the kept prefix. */
  lemma KeptStep(front: seq<Reminder>, r: Reminder, rest: seq<Reminder>)
    ensures front + ([r] + rest) == (front + [r]) + rest
  {
  }

  /** One round of the startup loop on the store: scheduling record `i` removes
    * it exactly when it is due and the removal goes through. */
  lemma StoreStep(all: seq<Reminder>, i: nat, now: int, env: string -> Env, before: seq<Reminder>, after: seq<Reminder>)
    requires UniqueIds(all) && i < |all|
    requires before == StartupRemaining(all[..i], now, env) + all[i..]
    requires after == ScheduleStore(before, all[i], now, env(all[i].id))
    ensures after == StartupRemaining(all[..i + 1], now, env) + all[i + 1..]
  {
    var r := all[i];
    var front := StartupRemaining(all[..i], now, env);
    var rest := all[i + 1..];
    AttemptsStep(all, i, now, env);
    SplitAt(all, i);
    if Survives(r, now, env) {
      KeptStep(front, r, rest);
    } else {
      RemainingFrom(all[..i], now, env);
      IdOnlyAt(all, i, front);
      RemoveStep(front, r, rest);
    }
  }

  /** One round of the startup loop on the timers: record `i` gets a timer
    * exactly when it lies in the future; the earlier records' timers stay. */
  lemma TimersStep(all: seq<Reminder>, i: nat, now: int, armed: map<string, Timer>, after: map<string, Timer>)
    requires UniqueIds(all) && i < |all|
    requires ArmedUpTo(armed, all, i, now)
    requires after == Arm(armed, all[i], now)
    ensures ArmedUpTo(after, all, i + 1, now)
  {
    var r := all[i];
    assert all[..i + 1] == all[..i] + [r];
    forall k | 0 <= k < i ensures all[k].id != r.id {
    }
  }

  /** The timers armed for the first `i` records are exactly those of the future
    * ones among them, each for its record and its remaining delay. */
  lemma {:induction false} ArmedPrefix(all: seq<Reminder>, i: nat, now: int)
    requires UniqueIds(all) && i <= |all|
    ensures ArmedUpTo(StartupTimers(all[..i], now), all, i, now)
  {
    if i > 0 {
      ArmedPrefix(all, i - 1, now);
      TimersPrefixStep(all, i - 1, now);
      TimersStep(all, i - 1, now, StartupTimers(all[..i - 1], now), StartupTimers(all[..i], now));
    }
  }

  /** At the end of the loop the timers describe the whole store. */
  lemma ArmedAll(timers: map<string, Timer>, all: seq<Reminder>, now: int)
    requires ArmedUpTo(timers, all, |all|, now)
    ensures forall r :: r in all ==>
      (r.id in timers <==> r.ts - now > 0) && (r.id in timers ==> timers[r.id] == Timer(r, r.ts - now))
    ensures timers.Keys <= Ids(all)
  {
    assert all[..|all|] == all;
    forall r | r in all
      ensures (r.id in timers <==> r.ts - now > 0) && (r.id in timers ==> timers[r.id] == Timer(r, r.ts - now))
    {
      var k :| 0 <= k < |all| && all[k] == r;
    }
  }

  /** Record `i`'s id occurs nowhere else in a list with unique ids. */
  lemma IdOnlyAt(all: seq<Reminder>, i: nat, front: seq<Reminder>)
    requires UniqueIds(all) && i < |all|
    requires forall x :: x in front ==> x in all[..i]
    ensures all[i].id !in Ids(front)
    ensures all[i].id !in Ids(all[i + 1..])
  {
    var r := all[i];
    forall x | x in front ensures x.id != r.id {
      var k :| 0 <= k < i && all[..i][k] == x;
      assert all[k] == x;
    }
    forall x | x in all[i + 1..] ensures x.id != r.id {
      var k :| 0 <= k < |all| - i - 1 && all[i + 1..][k] == x;
      assert all[i + 1 + k] == x;
    }
  }

  /** Removing a record's id from "kept prefix, the record, untouched suffix"
    * leaves prefix and suffix, when the id occurs nowhere else. */
  lemma RemoveStep(front: seq<Reminder>, r: Reminder, rest: seq<Reminder>)
    requires r.id !in Ids(front) && r.id !in Ids(rest)
    ensures WithoutId(front + ([r] + rest), r.id) == front + rest
  {
    var tail := [r] + rest;
    WithoutIdOrder(front, tail, r, r.id);
    WithoutIdOrder([r], rest, r, r.id);
    WithoutAbsentId(front, r.id);
    WithoutAbsentId(rest, r.id);
    calc {
      WithoutId(front + tail, r.id);
      WithoutId(front, r.id) + WithoutId(tail, r.id);
      front + WithoutId(tail, r.id);
      front + (WithoutId([r], r.id) + WithoutId(rest, r.id));
      front + ([] + rest);
      { assert [] + rest == rest; }
      front + rest;
    }
  }

  /** The startup loop only drops records: what remains is drawn from the store. */
  lemma {:induction false} RemainingFrom(all: seq<Reminder>, now: int, env: string -> Env)
    ensures forall x :: x in StartupRemaining(all, now, env) ==> x in all
  {
    if all != [] {
      var init := all[..|all| - 1];
      RemainingFrom(init, now, env);
      assert all == init + [all[|all| - 1]];
    }
  }

  /** What remains after startup is the store filtered by `Survives`. */
  lemma {:induction false} RemainingIsFilter(all: seq<Reminder>, now: int, env: string -> Env)
    ensures StartupRemaining(all, now, env) == Seqs.Filter(StartupKeeps(now, env), all)
  {
    if all != [] {
      var init := all[..|all| - 1];
      var last := all[|all| - 1];
      RemainingIsFilter(init, now, env);
      assert all == init + [last];
      Seqs.FilterAppend(StartupKeeps(now, env), init, [last]);
      assert [last][1..] == [];
    }
  }
}
