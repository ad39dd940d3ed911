/**
 * The per-user documents of db_connect.py: the `users` collection as a map from user id to a
 * document `{timezone, reminders}` whose fields may be absent, and the update operators the
 * module uses: `$set` with upsert, `$push` with upsert and `$pull` by `task` without upsert.
 */
module DbConnect {
  import opened Wrappers
  import opened Seqs

  /** The `_id` of a user document (a Discord user id). */
  type UserId = int

  /**
   * One element of a `reminders` array: only its `task` field is inspected (by `$pull`); the
   * other fields are carried along unchanged.
   */
  datatype StoredReminder = StoredReminder(task: Option<string>, fields: map<string, string>)

  /** A user document without its `_id`; `None` is a field the document does not have. */
  datatype UserDoc = UserDoc(timezone: Option<string>, reminders: Option<seq<StoredReminder>>)

  /** The document `get_user_data` inserts for a user it does not find. */
  const DefaultDoc := UserDoc(Some("UTC"), Some([]))

  type Users = map<UserId, UserDoc>

  /** The reminders array of a document, `[]` when the field is absent. */
  function RemindersOf(doc: UserDoc): seq<StoredReminder> {
    doc.reminders.GetOr([])
  }

  /** `update_one({"_id": id}, {"$set": {"timezone": tz}}, upsert=True)`. */
  function SetTimezone(users: Users, id: UserId, tz: string): (r: Users)
    ensures r.Keys == users.Keys + {id}
    ensures r[id].timezone == Some(tz)
    ensures r[id].reminders == if id in users then users[id].reminders else None
    ensures forall u :: u in users && u != id ==> r[u] == users[u]
  {
    if id in users then users[id := users[id].(timezone := Some(tz))]
    else users[id := UserDoc(Some(tz), None)]
  }

  /** `update_one({"_id": id}, {"$push": {"reminders": x}}, upsert=True)`. */
  function PushReminder(users: Users, id: UserId, x: StoredReminder): (r: Users)
    ensures r.Keys == users.Keys + {id}
    ensures r[id].reminders.Some?
    ensures RemindersOf(r[id]) == (if id in users then RemindersOf(users[id]) else []) + [x]
    ensures r[id].timezone == if id in users then users[id].timezone else None
    ensures forall u :: u in users && u != id ==> r[u] == users[u]
  {
    if id in users then users[id := users[id].(reminders := Some(RemindersOf(users[id]) + [x]))]
    else users[id := UserDoc(None, Some([x]))]
  }

  /** The elements of `rs` whose `task` is not `task`, in their original order. */
  function WithoutTask(rs: seq<StoredReminder>, task: string): (r: seq<StoredReminder>)
    ensures forall k :: 0 <= k < |r| ==> r[k].task != Some(task)
  {
    if rs == [] then []
    else if rs[0].task == Some(task) then WithoutTask(rs[1..], task)
    else [rs[0]] + WithoutTask(rs[1..], task)
  }

  /** `$pull` keeps the order of what it leaves behind. */
  lemma {:induction false} WithoutTaskSubSeq(rs: seq<StoredReminder>, task: string)
    ensures SubSeq(WithoutTask(rs, task), rs)
  {
    if rs != [] {
      WithoutTaskSubSeq(rs[1..], task);
      assert rs == [rs[0]] + rs[1..];
      if rs[0].task != Some(task) {
        SubSeqCons(rs[0], WithoutTask(rs[1..], task), rs[1..]);
      }
    }
  }

  /** `$pull` keeps every copy of every element whose task differs, and nothing with the pulled task. */
  lemma {:induction false} WithoutTaskKeeps(rs: seq<StoredReminder>, task: string, x: StoredReminder)
    ensures multiset(WithoutTask(rs, task))[x] == if x.task == Some(task) then 0 else multiset(rs)[x]
  {
    if rs != [] {
      WithoutTaskKeeps(rs[1..], task, x);
      assert rs == [rs[0]] + rs[1..];
    }
  }

  /** `update_one({"_id": id}, {"$pull": {"reminders": {"task": task}}})`, without upsert. */
  function PullTask(users: Users, id: UserId, task: string): (r: Users)
    ensures r.Keys == users.Keys
    ensures id in users ==> r[id].timezone == users[id].timezone
    ensures id in users ==> r[id].reminders.Some? == users[id].reminders.Some?
    ensures id in users ==> RemindersOf(r[id]) == WithoutTask(RemindersOf(users[id]), task)
    ensures forall u :: u in users && u != id ==> r[u] == users[u]
  {
    if id in users && users[id].reminders.Some? then
      users[id := users[id].(reminders := Some(WithoutTask(users[id].reminders.value, task)))]
    else users
  }

  /** The document `get_user_data` returns, and the collection afterwards. */
  function Lookup(users: Users, id: UserId): (r: (UserDoc, Users))
    ensures id in users ==> r == (users[id], users)
    ensures id !in users ==> r.0 == DefaultDoc && r.1 == users[id := DefaultDoc]
  {
    if id in users then (users[id], users) else (DefaultDoc, users[id := DefaultDoc])
  }

  // ---------------------------------------------------------------------------------------
  // Properties of the operators

  lemma {:induction false} WithoutTaskIdempotent(rs: seq<StoredReminder>, task: string)
    ensures WithoutTask(WithoutTask(rs, task), task) == WithoutTask(rs, task)
  {
    if rs != [] {
      WithoutTaskIdempotent(rs[1..], task);
      if rs[0].task != Some(task) {
        var tail := WithoutTask(rs[1..], task);
        assert ([rs[0]] + tail)[1..] == tail;
      }
    }
  }

  /** Removing the same task twice is the same as removing it once. */
  lemma PullTaskIdempotent(users: Users, id: UserId, task: string)
    ensures PullTask(PullTask(users, id, task), id, task) == PullTask(users, id, task)
  {
    if id in users && users[id].reminders.Some? {
      WithoutTaskIdempotent(users[id].reminders.value, task);
    }
  }

  /** Setting the same timezone twice is the same as setting it once. */
  lemma SetTimezoneIdempotent(users: Users, id: UserId, tz: string)
    ensures SetTimezone(SetTimezone(users, id, tz), id, tz) == SetTimezone(users, id, tz)
  {
  }

  lemma {:induction false} WithoutTaskAppend(rs: seq<StoredReminder>, x: StoredReminder, task: string)
    ensures WithoutTask(rs + [x], task) == WithoutTask(rs, task) + (if x.task == Some(task) then [] else [x])
  {
    var last := if x.task == Some(task) then [] else [x];
    if rs == [] {
      assert rs + [x] == [x];
      assert [x][1..] == [];
    } else {
      var l := rs + [x];
      assert l[0] == rs[0];
      assert l[1..] == rs[1..] + [x];
      WithoutTaskAppend(rs[1..], x, task);
      if rs[0].task == Some(task) {
        assert WithoutTask(l, task) == WithoutTask(l[1..], task);
        assert WithoutTask(rs, task) == WithoutTask(rs[1..], task);
      } else {
        assert WithoutTask(l, task) == [rs[0]] + WithoutTask(l[1..], task);
        assert WithoutTask(rs, task) == [rs[0]] + WithoutTask(rs[1..], task);
        assert [rs[0]] + (WithoutTask(rs[1..], task) + last) == ([rs[0]] + WithoutTask(rs[1..], task)) + last;
      }
    }
  }

  /** Pushing a reminder with task `t` and then pulling `t` leaves the same list as pulling `t` alone. */
  lemma PullAfterPush(users: Users, id: UserId, x: StoredReminder, t: string)
    requires x.task == Some(t)
    ensures var after := PullTask(PushReminder(users, id, x), id, t);
      RemindersOf(after[id]) == (if id in users then WithoutTask(RemindersOf(users[id]), t) else [])
  {
    var rs := if id in users then RemindersOf(users[id]) else [];
    WithoutTaskAppend(rs, x, t);
    if id in users && users[id].reminders.None? {
      assert WithoutTask([], t) == [];
    }
  }

  /** Reminders with another task survive a pull with all their copies; the pulled task is gone. */
  lemma PullKeepsOtherTasks(users: Users, id: UserId, t: string, x: StoredReminder)
    requires id in users
    ensures var after := PullTask(users, id, t);
      multiset(RemindersOf(after[id]))[x] == if x.task == Some(t) then 0 else multiset(RemindersOf(users[id]))[x]
  {
    WithoutTaskKeeps(RemindersOf(users[id]), t, x);
  }

  // ---------------------------------------------------------------------------------------
  // The collection

  /** The MongoDB collection `users`, reduced to its documents. */
  class UsersCollection {
    var users: Users

    /** A handle on the collection as it currently stands in the database. */
    constructor (stored: Users)
      ensures users == stored
    {
      users := stored;
    }

    /** `get_user_data`: the stored document, or a freshly inserted default one. */
    method GetUserData(id: UserId) returns (doc: UserDoc)
      modifies this
      ensures id in old(users) ==> doc == old(users)[id] && users == old(users)
      ensures id !in old(users) ==> doc == DefaultDoc && users == old(users)[id := DefaultDoc]
      ensures (doc, users) == Lookup(old(users), id)
    {
      if id in users {
        doc := users[id];
      } else {
        doc := DefaultDoc;
        users := users[id := doc];
      }
    }

    /** `update_timezone`. */
    method UpdateTimezone(id: UserId, tz: string)
      modifies this
      ensures users == SetTimezone(old(users), id, tz)
    {
      users := SetTimezone(users, id, tz);
    }

    /** `add_reminder`. */
    method AddReminder(id: UserId, reminder: StoredReminder)
      modifies this
      ensures users == PushReminder(old(users), id, reminder)
    {
      users := PushReminder(users, id, reminder);
    }

    /** `get_reminders`: the reminders array of the (possibly just created) document, `[]` if absent. */
    method GetReminders(id: UserId) returns (rs: seq<StoredReminder>)
      modifies this
      ensures rs == if id in old(users) then RemindersOf(old(users)[id]) else []
      ensures users == Lookup(old(users), id).1
    {
      var doc := GetUserData(id);
      rs := RemindersOf(doc);
    }

    /** `remove_reminder`. */
    method RemoveReminder(id: UserId, task: string)
      modifies this
      ensures users == PullTask(old(users), id, task)
      ensures id !in old(users) ==> users == old(users)
    {
      users := PullTask(users, id, task);
    }
  }
}
