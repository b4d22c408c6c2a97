/**
 * The /listOfReminders command of src/bot.py: the ids of the requester's
 * active reminders, in list order, or a "no reminders" reply.
 */
module Listing {
  import opened Reminders
  import opened Scheduler

  datatype ListReply = ReminderIds(ids: seq<int>) | NoReminders

  predicate Listed(r: Reminder, userId: int) { r.fromUser.id == userId && r.isActive }

  /** The ids of the user's active reminders, in list order (as numbers, not as text). */
  function UserReminderIds(rs: seq<Reminder>, userId: int): (ids: seq<int>)
    ensures |ids| <= |rs|
  {
    if rs == [] then []
    else UserReminderIds(rs[..|rs| - 1], userId) + (if Listed(rs[|rs| - 1], userId) then [rs[|rs| - 1].id] else [])
  }

  /** The reply: the ids when there are any, the "no reminders" message otherwise. */
  function ListReplyFor(rs: seq<Reminder>, userId: int): (reply: ListReply)
    ensures reply.ReminderIds? ==> reply.ids != []
  {
    var ids := UserReminderIds(rs, userId);
    if |ids| > 0 then ReminderIds(ids) else NoReminders
  }

  /** An id is listed exactly when some active reminder of that user carries it. */
  lemma {:induction false} ListedExactly(rs: seq<Reminder>, userId: int, id: int)
    ensures id in UserReminderIds(rs, userId) <==>
      exists i :: 0 <= i < |rs| && Listed(rs[i], userId) && rs[i].id == id
  {
    if rs != [] {
      var n := |rs| - 1;
      ListedExactly(rs[..n], userId, id);
      if id in UserReminderIds(rs, userId) && id !in UserReminderIds(rs[..n], userId) {
        assert Listed(rs[n], userId) && rs[n].id == id;
      }
      if exists i :: 0 <= i < |rs| && Listed(rs[i], userId) && rs[i].id == id {
        var i :| 0 <= i < |rs| && Listed(rs[i], userId) && rs[i].id == id;
        if i < n {
          assert rs[..n][i] == rs[i];
        }
      }
    }
  }

  /** The listing keeps list order: listing a concatenation concatenates the listings. */
  lemma {:induction false} ListingConcat(a: seq<Reminder>, b: seq<Reminder>, userId: int)
    ensures UserReminderIds(a + b, userId) == UserReminderIds(a, userId) + UserReminderIds(b, userId)
  {
    if b == [] {
      assert a + b == a;
    } else {
      var n := |b| - 1;
      ListingConcat(a, b[..n], userId);
      assert (a + b)[..|a + b| - 1] == a + b[..n];
    }
  }

  /** A reminder someone else set, or an inactive one, never shows in a user's listing. */
  lemma ListingOnlyOwnActive(rs: seq<Reminder>, userId: int, i: nat)
    requires i < |rs| && !Listed(rs[i], userId)
    requires DistinctIds(rs)
    ensures rs[i].id !in UserReminderIds(rs, userId)
  {
    ListedExactly(rs, userId, rs[i].id);
  }

  /**
   * After a cycle, a user's listing shows exactly the ids of that user's
   * reminders that were active and have not yet come due.
   */
  lemma ListingAfterCycle(rs: seq<Reminder>, userId: int, now: int, id: int)
    ensures id in UserReminderIds(Settle(rs, now), userId) <==>
      exists i :: 0 <= i < |rs| && Listed(rs[i], userId) && !(rs[i].date < now) && rs[i].id == id
  {
    var s := Settle(rs, now);
    ListedExactly(s, userId, id);
    assert forall i :: 0 <= i < |rs| ==> (Listed(s[i], userId) <==> Listed(rs[i], userId) && !(rs[i].date < now));
  }
}
