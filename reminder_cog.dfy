/**
 * The in-memory reminder cog of cogs/reminder.py: a list of reminder records, the `remind`
 * command that appends to it, and the once-a-minute `check_reminders` tick that notifies the
 * reminders due at the current hour and minute and removes the due ones whose frequency is
 * "once" -- from inside the `for` loop that walks the same list.
 */
module ReminderCog {
  import opened Wrappers
  import opened Clock
  import opened Seqs

  /** A Discord text channel, identified by its id (channels compare equal by id). */
  type ChannelId = nat

  /** One entry of `self.reminders`: the dict `{task, frequency, time, channel}`. */
  datatype Record = Record(task: string, frequency: string, time: TimeOfDay, channel: ChannelId)

  /** A message `channel.send("⏰ Reminder: <task>")` delivered by a tick. */
  datatype Notification = Notification(channel: ChannelId, task: string)

  /** What `remind` answers in the invoking channel. */
  datatype Reply = ReminderSet(task: string, time: string, frequency: string) | InvalidTimeFormat

  /** Python's `str.lower` on the ASCII letters. */
  function LowerChar(c: char): char {
    if 'A' <= c <= 'Z' then (c as int + 32) as char else c
  }

  function Lower(s: string): (r: string)
    ensures |r| == |s|
    ensures forall k :: 0 <= k < |s| ==> r[k] == LowerChar(s[k])
  {
    if s == [] then [] else [LowerChar(s[0])] + Lower(s[1..])
  }


  lemma LowerCharIs(c: char, lo: char, up: char)
    requires 'A' <= up <= 'Z' && lo as int == up as int + 32
    ensures LowerChar(c) == lo <==> c == lo || c == up
  {
  }

  /** Two four-letter strings are equal exactly when they agree letter by letter. */
  lemma SameFourLetters(a: string, b: string)
    requires |a| == 4 && |b| == 4
    ensures a == b <==> a[0] == b[0] && a[1] == b[1] && a[2] == b[2] && a[3] == b[3]
  {
    if a[0] == b[0] && a[1] == b[1] && a[2] == b[2] && a[3] == b[3] {
      assert forall k :: 0 <= k < 4 ==> a[k] == b[k];
    }
  }

  /** "once" in any letter case, and nothing else, marks a one-time reminder. */
  lemma OnceSpellings(f: string)
    ensures Lower(f) == "once" <==>
      |f| == 4 && (f[0] == 'o' || f[0] == 'O') && (f[1] == 'n' || f[1] == 'N')
      && (f[2] == 'c' || f[2] == 'C') && (f[3] == 'e' || f[3] == 'E')
  {
    var l := Lower(f);
    if |f| == 4 {
      var w := "once";
      assert w[0] == 'o' && w[1] == 'n' && w[2] == 'c' && w[3] == 'e';
      SameFourLetters(l, w);
      assert l[0] == LowerChar(f[0]) && l[1] == LowerChar(f[1]);
      assert l[2] == LowerChar(f[2]) && l[3] == LowerChar(f[3]);
      LowerCharIs(f[0], 'o', 'O');
      LowerCharIs(f[1], 'n', 'N');
      LowerCharIs(f[2], 'c', 'C');
      LowerCharIs(f[3], 'e', 'E');
    } else {
      assert |l| != |"once"|;
    }
  }

  /** `reminder["frequency"].lower() == "once"`: "once" in any letter case. */
  predicate IsOnce(r: Record)
    ensures IsOnce(r) <==>
      |r.frequency| == 4 && (r.frequency[0] == 'o' || r.frequency[0] == 'O')
      && (r.frequency[1] == 'n' || r.frequency[1] == 'N') && (r.frequency[2] == 'c' || r.frequency[2] == 'C')
      && (r.frequency[3] == 'e' || r.frequency[3] == 'E')
  {
    OnceSpellings(r.frequency);
    Lower(r.frequency) == "once"
  }

  /** The due test of the tick: equal hour and equal minute. */
  predicate Due(r: Record, now: TimeOfDay)
    ensures Due(r, now) <==> r.time == now
  {
    now.hour == r.time.hour && now.minute == r.time.minute
  }

  /** The records of `l` that are due at `now`, in order. */
  function DueOf(l: seq<Record>, now: TimeOfDay): (d: seq<Record>)
    ensures forall k :: 0 <= k < |d| ==> Due(d[k], now)
  {
    if l == [] then [] else (if Due(l[0], now) then [l[0]] else []) + DueOf(l[1..], now)
  }

  /** The one-time records of `l`, in order. */
  function OnceOf(l: seq<Record>): seq<Record> {
    if l == [] then [] else (if IsOnce(l[0]) then [l[0]] else []) + OnceOf(l[1..])
  }

  lemma {:induction false} OnceOfMembers(l: seq<Record>, x: Record)
    requires x in OnceOf(l)
    ensures x in l && IsOnce(x)
  {
    if l != [] {
      if x != l[0] || !IsOnce(l[0]) {
        assert x in OnceOf(l[1..]);
        OnceOfMembers(l[1..], x);
      }
    }
  }

  /** The list after a tick, and the records notified by it, in notification order. */
  datatype TickOutcome = TickOutcome(remaining: seq<Record>, fired: seq<Record>)

  /** The list after the loop body has run on the record at index `i`: a due "once" record is removed. */
  function Visit(l: seq<Record>, i: nat, now: TimeOfDay): (next: seq<Record>)
    requires i < |l|
    ensures |next| <= |l|
  {
    if Due(l[i], now) && IsOnce(l[i]) then RemoveFirst(l, l[i]) else l
  }

  /** The records the loop body notifies when it visits `x`: `x` itself when it is due. */
  function Fire(x: Record, now: TimeOfDay): seq<Record> {
    if Due(x, now) then [x] else []
  }

  /**
   * The `for` loop of `check_reminders` resumed at list index `i`. Python's list iterator reads
   * `l[i]` while `i < len(l)` and then moves to `i + 1` whatever the body did to the list, so
   * after `l.remove(l[i])` the element that followed `l[i]` sits at index `i` and is passed over.
   */
  function ScanFrom(l: seq<Record>, i: nat, now: TimeOfDay): TickOutcome
    decreases |l| - i
  {
    if i >= |l| then TickOutcome(l, [])
    else if Due(l[i], now) then
      var rest := ScanFrom(Visit(l, i, now), i + 1, now);
      TickOutcome(rest.remaining, [l[i]] + rest.fired)
    else ScanFrom(l, i + 1, now)
  }

  /**
   * One pass of the loop body of `CheckReminders` at index `i`: the list becomes `Visit(l, i, now)`
   * and the notified records grow by `Fire(l[i], now)`, and the scan still ends where it would have.
   */
  lemma ScanAdvance(l: seq<Record>, i: nat, now: TimeOfDay, fired: seq<Record>, l': seq<Record>, fired': seq<Record>)
    requires i < |l|
    requires l' == Visit(l, i, now) && fired' == fired + Fire(l[i], now)
    ensures ScanFrom(l', i + 1, now).remaining == ScanFrom(l, i, now).remaining
    ensures fired' + ScanFrom(l', i + 1, now).fired == fired + ScanFrom(l, i, now).fired
  {
    if !Due(l[i], now) {
      assert Fire(l[i], now) == [];
      assert fired' == fired;
    }
  }

  /** One run of `check_reminders` over the list `l` at wall-clock time `now`. */
  function Tick(l: seq<Record>, now: TimeOfDay): TickOutcome {
    ScanFrom(l, 0, now)
  }

  /** The messages sent for the notified records. */
  function Notifications(fired: seq<Record>): seq<Notification> {
    seq(|fired|, k requires 0 <= k < |fired| => Notification(fired[k].channel, fired[k].task))
  }

  lemma NotificationsSnoc(fired: seq<Record>, x: Record)
    ensures Notifications(fired + [x]) == Notifications(fired) + [Notification(x.channel, x.task)]
  {
  }

  /** The part of `l` that the loop has not reached at index `i`. */
  function Drop(l: seq<Record>, i: nat): seq<Record> {
    if i <= |l| then l[i..] else []
  }

  // ---------------------------------------------------------------------------------------
  // What one tick does

  lemma {:induction false} ScanFromFiresDue(l: seq<Record>, i: nat, now: TimeOfDay)
    ensures forall k :: 0 <= k < |ScanFrom(l, i, now).fired| ==> Due(ScanFrom(l, i, now).fired[k], now)
    decreases |l| - i
  {
    if i < |l| {
      ScanFromFiresDue(Visit(l, i, now), i + 1, now);
    }
  }

  /** A tick notifies only records whose hour and minute both equal the current ones. */
  lemma TickFiresOnlyDue(l: seq<Record>, now: TimeOfDay)
    ensures forall k :: 0 <= k < |Tick(l, now).fired| ==> Tick(l, now).fired[k].time == now
  {
    ScanFromFiresDue(l, 0, now);
  }

  lemma {:induction false} ScanFromRemainingSubSeq(l: seq<Record>, i: nat, now: TimeOfDay)
    ensures SubSeq(ScanFrom(l, i, now).remaining, l)
    decreases |l| - i
  {
    if i >= |l| {
      SubSeqRefl(l);
    } else {
      var next := Visit(l, i, now);
      ScanFromRemainingSubSeq(next, i + 1, now);
      if next == l {
        SubSeqRefl(l);
      }
      SubSeqTrans(ScanFrom(next, i + 1, now).remaining, next, l);
    }
  }

  /** After a tick the list is a subsequence of the list before it: nothing added, moved or changed. */
  lemma TickRemainingSubSeq(l: seq<Record>, now: TimeOfDay)
    ensures SubSeq(Tick(l, now).remaining, l)
  {
    ScanFromRemainingSubSeq(l, 0, now);
  }

  lemma OnceOfAppend(a: seq<Record>, b: seq<Record>)
    requires |a| <= 1
    ensures OnceOf(a + b) == OnceOf(a) + OnceOf(b)
  {
    if a != [] {
      assert (a + b)[0] == a[0] && (a + b)[1..] == b && a[1..] == [];
      assert OnceOf(a) == (if IsOnce(a[0]) then [a[0]] else []) + OnceOf([]);
    } else {
      assert a + b == b;
    }
  }

  lemma {:induction false} ScanFromConsumes(l: seq<Record>, i: nat, now: TimeOfDay)
    ensures multiset(l) == multiset(ScanFrom(l, i, now).remaining) + multiset(OnceOf(ScanFrom(l, i, now).fired))
    decreases |l| - i, 1
  {
    if i < |l| {
      if !Due(l[i], now) {
        ScanFromConsumes(l, i + 1, now);
      } else if IsOnce(l[i]) {
        ConsumesOnce(l, i, now);
      } else {
        ConsumesRecurring(l, i, now);
      }
    }
  }

  /** ScanFromConsumes at a due "once" record, which leaves the list. */
  lemma {:induction false} ConsumesOnce(l: seq<Record>, i: nat, now: TimeOfDay)
    requires i < |l| && Due(l[i], now) && IsOnce(l[i])
    ensures multiset(l) == multiset(ScanFrom(l, i, now).remaining) + multiset(OnceOf(ScanFrom(l, i, now).fired))
    decreases |l| - i, 0
  {
    var x := l[i];
    var next := RemoveFirst(l, x);
    var rest := ScanFrom(next, i + 1, now);
    ScanFromConsumes(next, i + 1, now);
    ConsumeStep(l, next, x, rest);
  }

  /** ScanFromConsumes at a due recurring record, which stays. */
  lemma {:induction false} ConsumesRecurring(l: seq<Record>, i: nat, now: TimeOfDay)
    requires i < |l| && Due(l[i], now) && !IsOnce(l[i])
    ensures multiset(l) == multiset(ScanFrom(l, i, now).remaining) + multiset(OnceOf(ScanFrom(l, i, now).fired))
    decreases |l| - i, 0
  {
    var x := l[i];
    var rest := ScanFrom(l, i + 1, now);
    ScanFromConsumes(l, i + 1, now);
    OnceOfAppend([x], rest.fired);
    assert OnceOf([x]) == [] by {
      assert [x][1..] == [];
    }
  }

  /** The bookkeeping of one due "once" record in ScanFromConsumes. */
  lemma ConsumeStep(l: seq<Record>, next: seq<Record>, x: Record, rest: TickOutcome)
    requires x in l && IsOnce(x) && multiset(next) == multiset(l) - multiset{x}
    requires multiset(next) == multiset(rest.remaining) + multiset(OnceOf(rest.fired))
    ensures multiset(l) == multiset(rest.remaining) + multiset(OnceOf([x] + rest.fired))
  {
    OnceOfAppend([x], rest.fired);
    assert OnceOf([x]) == [x] by {
      assert [x][1..] == [];
    }
    assert multiset(l) == multiset(next) + multiset{x};
  }

  /**
   * Each notified one-time record takes exactly one equal record out of the list, and nothing
   * else leaves it: the old list is the new list plus the notified "once" records.
   */
  lemma TickConsumesFiredOnce(l: seq<Record>, now: TimeOfDay)
    ensures multiset(l) == multiset(Tick(l, now).remaining) + multiset(OnceOf(Tick(l, now).fired))
    ensures |Tick(l, now).remaining| == |l| - |OnceOf(Tick(l, now).fired)|
  {
    ScanFromConsumes(l, 0, now);
    var t := Tick(l, now);
    assert |multiset(l)| == |multiset(t.remaining)| + |multiset(OnceOf(t.fired))|;
  }

  /** A record that is not both due and "once" keeps every one of its copies through a tick. */
  lemma TickKeepsOthers(l: seq<Record>, now: TimeOfDay, r: Record)
    requires !(Due(r, now) && IsOnce(r))
    ensures multiset(Tick(l, now).remaining)[r] == multiset(l)[r]
  {
    var t := Tick(l, now);
    TickConsumesFiredOnce(l, now);
    ScanFromFiresDue(l, 0, now);
    if r in OnceOf(t.fired) {
      OnceOfMembers(t.fired, r);
      assert false;
    }
  }

  /** In particular a record whose frequency, lowercased, is not "once" is never removed. */
  lemma TickNeverRemovesRecurring(l: seq<Record>, now: TimeOfDay, r: Record)
    requires r in l && !IsOnce(r)
    ensures r in Tick(l, now).remaining
  {
    TickKeepsOthers(l, now, r);
  }

  lemma DropTail(l: seq<Record>, i: nat)
    requires i < |l|
    ensures Drop(l, i) == [l[i]] + Drop(l, i + 1)
  {
  }

  /** Deleting at `j <= i` shifts everything after index `i` one place to the left. */
  lemma DropAfterDelete(l: seq<Record>, j: nat, i: nat)
    requires j <= i < |l|
    ensures Drop(l[..j] + l[j + 1..], i + 1) == Drop(l, i + 2)
  {
    var d := l[..j] + l[j + 1..];
    if i + 1 <= |d| {
      assert forall k :: i + 1 <= k < |d| ==> d[k] == l[k + 1];
      assert d[i + 1..] == l[i + 2..];
    }
  }

  lemma {:induction false} ScanFromFiredSubSeq(l: seq<Record>, i: nat, now: TimeOfDay)
    ensures SubSeq(ScanFrom(l, i, now).fired, Drop(l, i))
    decreases |l| - i
  {
    if i < |l| {
      var next := Visit(l, i, now);
      ScanFromFiredSubSeq(next, i + 1, now);
      FiredStep(l, i, now, ScanFrom(next, i + 1, now).fired);
      FiredUnfold(l, i, now);
    }
  }

  /** One step of ScanFrom, seen through Visit and Fire. */
  lemma FiredUnfold(l: seq<Record>, i: nat, now: TimeOfDay)
    requires i < |l|
    ensures ScanFrom(l, i, now).fired == Fire(l[i], now) + ScanFrom(Visit(l, i, now), i + 1, now).fired
  {
  }

  /**
   * The bookkeeping of one visit in ScanFromFiredSubSeq. After a due "once" record is removed,
   * the rest of the scan only sees the records from index `i + 2` of the old list on.
   */
  lemma FiredStep(l: seq<Record>, i: nat, now: TimeOfDay, f: seq<Record>)
    requires i < |l|
    requires SubSeq(f, Drop(Visit(l, i, now), i + 1))
    ensures SubSeq(Fire(l[i], now) + f, Drop(l, i))
  {
    var x := l[i];
    DropTail(l, i);
    if Due(x, now) && IsOnce(x) {
      FiredOnceStep(l, i, f);
    } else if Due(x, now) {
      SubSeqCons(x, f, Drop(l, i + 1));
    } else {
      assert Fire(x, now) + f == f;
      SubSeqSkip(x, f, Drop(l, i + 1));
    }
  }

  /** A due "once" record is removed, so the rest of the scan starts at index `i + 2` of the old list. */
  lemma FiredOnceStep(l: seq<Record>, i: nat, f: seq<Record>)
    requires i < |l|
    requires SubSeq(f, Drop(RemoveFirst(l, l[i]), i + 1))
    ensures SubSeq([l[i]] + f, Drop(l, i))
  {
    var x := l[i];
    DropAfterDelete(l, IndexOf(l, x), i);
    if i + 1 < |l| {
      DropTail(l, i + 1);
      SubSeqSkip(l[i + 1], f, Drop(l, i + 2));
    }
    SubSeqCons(x, f, Drop(l, i + 1));
    DropTail(l, i);
  }

  lemma DueOfCons(l: seq<Record>, now: TimeOfDay)
    requires l != []
    ensures DueOf(l, now) == (if Due(l[0], now) then [l[0]] + DueOf(l[1..], now) else DueOf(l[1..], now))
  {
  }

  lemma {:induction false} SubSeqOfDue(a: seq<Record>, b: seq<Record>, now: TimeOfDay)
    requires SubSeq(a, b)
    requires forall k :: 0 <= k < |a| ==> Due(a[k], now)
    ensures SubSeq(a, DueOf(b, now))
    decreases |b|
  {
    if a != [] {
      DueOfCons(b, now);
      if a[0] == b[0] && SubSeq(a[1..], b[1..]) {
        SubSeqOfDue(a[1..], b[1..], now);
        SubSeqCons(b[0], a[1..], DueOf(b[1..], now));
        assert a == [a[0]] + a[1..];
      } else {
        SubSeqOfDue(a, b[1..], now);
        if Due(b[0], now) {
          var d := DueOf(b, now);
          assert d[1..] == DueOf(b[1..], now);
          assert SubSeq(a, d[1..]);
        }
      }
    }
  }

  /**
   * Notifications never outnumber the due records, and each notified record is a due record of
   * the list, taken in list order.
   */
  lemma TickFiresAtMostDue(l: seq<Record>, now: TimeOfDay)
    ensures SubSeq(Tick(l, now).fired, DueOf(l, now))
    ensures |Tick(l, now).fired| <= |DueOf(l, now)|
  {
    ScanFromFiredSubSeq(l, 0, now);
    ScanFromFiresDue(l, 0, now);
    SubSeqOfDue(Tick(l, now).fired, l, now);
    SubSeqLength(Tick(l, now).fired, DueOf(l, now));
  }

  lemma {:induction false} ScanFromWithoutDueOnce(l: seq<Record>, i: nat, now: TimeOfDay)
    requires forall k :: 0 <= k < |l| ==> !(Due(l[k], now) && IsOnce(l[k]))
    ensures ScanFrom(l, i, now) == TickOutcome(l, DueOf(Drop(l, i), now))
    decreases |l| - i
  {
    if i < |l| {
      assert Visit(l, i, now) == l;
      ScanFromWithoutDueOnce(l, i + 1, now);
      DropTail(l, i);
      DueOfCons(Drop(l, i), now);
      assert Drop(l, i)[1..] == Drop(l, i + 1);
    }
  }

  /** With no due "once" record, a tick changes nothing and notifies every due record, in order. */
  lemma TickWithoutDueOnce(l: seq<Record>, now: TimeOfDay)
    requires forall k :: 0 <= k < |l| ==> !(Due(l[k], now) && IsOnce(l[k]))
    ensures Tick(l, now) == TickOutcome(l, DueOf(l, now))
  {
    ScanFromWithoutDueOnce(l, 0, now);
    assert Drop(l, 0) == l;
  }

  lemma {:induction false} DueOfNone(l: seq<Record>, now: TimeOfDay)
    requires forall k :: 0 <= k < |l| ==> !Due(l[k], now)
    ensures DueOf(l, now) == []
  {
    if l != [] {
      DueOfNone(l[1..], now);
    }
  }

  /** A minute at which no record is due sends nothing and leaves the list as it was. */
  lemma TickIdleMinute(l: seq<Record>, now: TimeOfDay)
    requires forall k :: 0 <= k < |l| ==> !Due(l[k], now)
    ensures Tick(l, now) == TickOutcome(l, [])
  {
    TickWithoutDueOnce(l, now);
    DueOfNone(l, now);
  }

  /**
   * Removing during iteration skips the next record, in any list: after a due "once" record at
   * index `i` is notified and removed, the rest of the scan notifies only records that stood at
   * index `i + 2` or later of the list before the removal, so the record at `i + 1` is not visited.
   */
  lemma ScanSkipsNext(l: seq<Record>, i: nat, now: TimeOfDay)
    requires i < |l| && Due(l[i], now) && IsOnce(l[i])
    ensures ScanFrom(l, i, now).fired == [l[i]] + ScanFrom(RemoveFirst(l, l[i]), i + 1, now).fired
    ensures SubSeq(ScanFrom(RemoveFirst(l, l[i]), i + 1, now).fired, Drop(l, i + 2))
  {
    ScanFromFiredSubSeq(RemoveFirst(l, l[i]), i + 1, now);
    DropAfterDelete(l, IndexOf(l, l[i]), i);
  }

  /**
   * The two-record example of ScanSkipsNext: of two adjacent due "once" records only the
   * first is notified, and the second stays in the list for the next tick.
   */
  lemma TickSkipsAfterRemoval(a: Record, b: Record, now: TimeOfDay)
    requires Due(a, now) && Due(b, now) && IsOnce(a) && IsOnce(b)
    ensures Tick([a, b], now) == TickOutcome([b], [a])
    ensures |Tick([a, b], now).fired| < |DueOf([a, b], now)|
  {
    var l := [a, b];
    assert l[0] == a && l[1] == b && l[1..] == [b] && [b][1..] == [];
    assert IndexOf(l, a) == 0;
    assert Visit(l, 0, now) == [b];
    assert ScanFrom([b], 1, now) == TickOutcome([b], []);
    assert Fire(a, now) == [a];
    assert ScanFrom(l, 0, now) == TickOutcome([b], [a]);
    DueOfCons(l, now);
    DueOfCons([b], now);
  }

  // ---------------------------------------------------------------------------------------
  // The cog

  /** The `Reminder` cog; `reminders` is `self.reminders`. */
  class Reminder {
    var reminders: seq<Record>

    /** A new cog starts with no reminders. */
    constructor ()
      ensures reminders == []
    {
      reminders := [];
    }

    /**
     * `remind`: a time that does not parse leaves the list alone and answers with the format
     * error; otherwise one record goes on the end and the answer echoes the arguments.
     */
    method Remind(task: string, frequency: string, time: string, channel: ChannelId) returns (reply: Reply)
      modifies this
      ensures Parse(time).Some? ==>
        reminders == old(reminders) + [Record(task, frequency, Parse(time).value, channel)]
        && reply == ReminderSet(task, time, frequency)
      ensures Parse(time).None? ==> reminders == old(reminders) && reply == InvalidTimeFormat
    {
      var parsed := Parse(time);
      if parsed.Some? {
        reminders := reminders + [Record(task, frequency, parsed.value, channel)];
        reply := ReminderSet(task, time, frequency);
      } else {
        reply := InvalidTimeFormat;
      }
    }

    /**
     * `check_reminders`, one tick at wall-clock time `now`; returns the messages sent, in order.
     * The current list is walked by index while records are removed from it.
     */
    method CheckReminders(now: TimeOfDay) returns (sent: seq<Notification>)
      requires now.Valid()
      modifies this
      ensures reminders == Tick(old(reminders), now).remaining
      ensures sent == Notifications(Tick(old(reminders), now).fired)
      ensures SubSeq(reminders, old(reminders))
      ensures |sent| <= |DueOf(old(reminders), now)|
    {
      ghost var fired: seq<Record> := [];
      sent := [];
      var i := 0;
      while i < |reminders|
        invariant Tick(old(reminders), now)
          == TickOutcome(ScanFrom(reminders, i, now).remaining, fired + ScanFrom(reminders, i, now).fired)
        invariant sent == Notifications(fired)
        decreases |reminders| - i
      {
        ghost var before, firedBefore := reminders, fired;
        var reminder := reminders[i];
        if now.hour == reminder.time.hour && now.minute == reminder.time.minute {
          NotificationsSnoc(fired, reminder);
          sent := sent + [Notification(reminder.channel, reminder.task)];
          fired := fired + [reminder];
          if Lower(reminder.frequency) == "once" {
            reminders := RemoveFirst(reminders, reminder);
          }
        }
        ScanAdvance(before, i, now, firedBefore, reminders, fired);
        i := i + 1;
      }
      TickRemainingSubSeq(old(reminders), now);
      TickFiresAtMostDue(old(reminders), now);
    }
  }
}
