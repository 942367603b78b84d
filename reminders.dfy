/** src/reminders.js: the persisted list of pending reminders. The JSON file
  * becomes the field `records`; each operation reads the whole list, changes it
  * and writes the whole list back, as the source does. */
module Reminders {
  import opened Wrappers
  import Seqs

  /** One reminder record as `/remind` builds it; `ts` is the deadline in epoch milliseconds. */
  datatype Reminder = Reminder(
    id: string,
    guildId: Option<string>,
    channelId: Option<string>,
    userId: string,
    text: string,
    ts: int)

  /** The ids that occur in a list of records. */
  function Ids(s: seq<Reminder>): (r: set<string>) {
    set r | r in s :: r.id
  }

  /** No two records share an id (ids come from `crypto.randomUUID`). */
  predicate UniqueIds(s: seq<Reminder>) {
    forall i, j :: 0 <= i < |s| && 0 <= j < |s| && s[i].id == s[j].id ==> i == j
  }

  /** The filter predicate `r => r.id !== id` of `removeReminder`. */
  function IdDiffers(id: string): (r: Reminder -> bool) {
    (r: Reminder) => r.id != id
  }

  /** `readAll().filter(r => r.id !== id)`. */
  function WithoutId(s: seq<Reminder>, id: string): (r: seq<Reminder>)
    ensures |r| <= |s|
  {
    Seqs.Filter(IdDiffers(id), s)
  }

  /** Removal keeps exactly the records with another id. */
  lemma WithoutIdMembers(s: seq<Reminder>, id: string)
    ensures forall x :: x in WithoutId(s, id) <==> x in s && x.id != id
  {
    Seqs.FilterMembers(IdDiffers(id), s);
  }

  class ReminderStore {
    /** The contents of the reminders file, in file order. */
    var records: seq<Reminder>

    /** A store whose file does not exist yet reads as the empty list. */
    constructor ()
      ensures records == []
    {
      records := [];
    }

    /** `readAll`. */
    method ReadAll() returns (all: seq<Reminder>)
      ensures all == records
    {
      all := records;
    }

    /** `writeAll`: replaces the whole file. */
    method WriteAll(list: seq<Reminder>)
      modifies this
      ensures records == list
    {
      records := list;
    }

    /** `addReminder`: read, push at the end, write back. */
    method AddReminder(reminder: Reminder)
      modifies this
      ensures records == old(records) + [reminder]
      ensures reminder in records && |records| == |old(records)| + 1
    {
      var all := ReadAll();
      all := all + [reminder];
      WriteAll(all);
    }

    /** `removeReminder`: read, drop every record with this id, write back. */
    method RemoveReminder(id: string)
      modifies this
      ensures records == WithoutId(old(records), id)
      ensures id !in Ids(records)
    {
      var all := ReadAll();
      all := WithoutId(all, id);
      WriteAll(all);
      WithoutIdMembers(old(records), id);
    }
  }

  // ---------------------------------------------------------------------------
  // Properties of the list operations

  /** Removal keeps exactly the records with another id, in their original order:
    * it distributes over concatenation and keeps or drops single records by their id. */
  lemma WithoutIdOrder(a: seq<Reminder>, b: seq<Reminder>, x: Reminder, id: string)
    ensures WithoutId(a + b, id) == WithoutId(a, id) + WithoutId(b, id)
    ensures WithoutId([x], id) == if x.id == id then [] else [x]
  {
    Seqs.FilterAppend(IdDiffers(id), a, b);
    assert [x][1..] == [];
  }

  /** Removing an id that is not present leaves the list unchanged. */
  lemma WithoutAbsentId(s: seq<Reminder>, id: string)
    requires id !in Ids(s)
    ensures WithoutId(s, id) == s
  {
    Seqs.FilterKeepsAll(IdDiffers(id), s);
  }

  /** Removal is idempotent: removing the same id twice is removing it once. */
  lemma WithoutIdIdempotent(s: seq<Reminder>, id: string)
    ensures WithoutId(WithoutId(s, id), id) == WithoutId(s, id)
  {
    WithoutIdMembers(s, id);
    WithoutAbsentId(WithoutId(s, id), id);
  }

  /** Adding a record with a fresh id and then removing that id restores the list. */
  lemma RemoveAfterAdd(s: seq<Reminder>, r: Reminder)
    requires r.id !in Ids(s)
    ensures r in s + [r]
    ensures WithoutId(s + [r], r.id) == s
  {
    WithoutIdOrder(s, [r], r, r.id);
    WithoutAbsentId(s, r.id);
  }

  /** Appending a record with a fresh id keeps the ids unique. */
  lemma AppendFreshUnique(s: seq<Reminder>, r: Reminder)
    requires UniqueIds(s) && r.id !in Ids(s)
    ensures UniqueIds(s + [r])
  {
  }

  /** Removal keeps the ids unique. */
  lemma {:induction false} WithoutIdUnique(s: seq<Reminder>, id: string)
    requires UniqueIds(s)
    ensures UniqueIds(WithoutId(s, id))
  {
    if s != [] {
      var t := s[1..];
      assert UniqueIds(t) by {
        forall i, j | 0 <= i < |t| && 0 <= j < |t| && t[i].id == t[j].id
          ensures i == j
        {
          assert s[i + 1].id == s[j + 1].id;
        }
      }
      WithoutIdUnique(t, id);
      WithoutIdOrder([s[0]], t, s[0], id);
      assert s == [s[0]] + t;
      var rest := WithoutId(t, id);
      WithoutIdMembers(t, id);
      if s[0].id != id {
        assert WithoutId(s, id) == [s[0]] + rest;
        AppendFrontUnique(s[0], rest);
      }
    }
  }

  /** Putting a record with a fresh id in front keeps the ids unique. */
  lemma AppendFrontUnique(x: Reminder, s: seq<Reminder>)
    requires UniqueIds(s) && x.id !in Ids(s)
    ensures UniqueIds([x] + s)
  {
  }
}
