/**
 * The bot object of src/bot.py: the reminder list it owns, the scheduler
 * flag and counters, and the outbox of notifications it has sent. Command
 * replies are returned to the caller; notifications from the scheduler are
 * appended to `outbox`. Clock readings are passed in as `now`.
 */
module Bots {
  import opened Wrappers
  import opened Text
  import opened Reminders
  import opened Durations
  import opened Scheduler
  import opened Listing

  /** The exceptions that escape handle_remind; the handler then sends no reply. */
  datatype Failure = IndexError | OverflowError

  datatype RemindReply = DurationRejected(error: DurationError) | ReminderSet(at: int) | Raised(failure: Failure)

  class Bot {
    /** The identifier hash handed to every new reminder. */
    const idHash: HashFn
    var reminders: seq<Reminder>
    var cycleRun: bool
    var cycleWait: nat
    var cycles: nat
    /** Notifications sent to users, oldest first. */
    var outbox: seq<Notice>

    constructor (idHash: HashFn)
      ensures this.idHash == idHash
      ensures reminders == [] && outbox == []
      ensures cycleRun && cycleWait == 2 && cycles == 0
    {
      this.idHash := idHash;
      reminders := [];
      cycleRun := true;
      cycleWait := 2;
      cycles := 0;
      outbox := [];
    }

    /** Stopping the bot: no further cycle starts. */
    method Stop()
      modifies this`cycleRun
      ensures !cycleRun
    {
      cycleRun := false;
    }

    /**
     * One turn of the update_cycle loop at time `now`: if the loop is still
     * running, count the cycle, snapshot the active reminders, check each in
     * submission order, and for an expired one deactivate the first reminder
     * with its id and send its notice. Once stopped, nothing happens.
     */
    method Cycle(now: int)
      modifies this`reminders, this`outbox, this`cycles
      ensures cycleRun == old(cycleRun)
      ensures !old(cycleRun) ==> reminders == old(reminders) && outbox == old(outbox) && cycles == old(cycles)
      ensures old(cycleRun) ==> cycles == old(cycles) + 1
      ensures old(cycleRun) ==> reminders == CycleAsWritten(old(reminders), now).0
      ensures old(cycleRun) ==> outbox == old(outbox) + CycleAsWritten(old(reminders), now).1
      ensures old(cycleRun) && DistinctIds(old(reminders)) ==>
        reminders == Settle(old(reminders), now) && outbox == old(outbox) + Notices(old(reminders), now)
    {
      if !cycleRun {
        return;
      }
      cycles := cycles + 1;
      ghost var start := reminders;
      var snapshot := Active(reminders);
      var i := 0;
      while i < |snapshot|
        invariant 0 <= i <= |snapshot|
        invariant cycles == old(cycles) + 1
        invariant reminders == Process(start, snapshot[..i], now).0
        invariant outbox == old(outbox) + Process(start, snapshot[..i], now).1
      {
        ProcessNext(start, snapshot, i, now);
        var result := Check(snapshot[i], now);
        if result.0 {
          match IndexOfId(reminders, result.1) {
            case Some(k) =>
              var r := reminders[k];
              reminders := reminders[k := r.(isActive := false)];
              outbox := outbox + [NoticeFor(r)];
              AppendAssoc(old(outbox), Process(start, snapshot[..i], now).1, [NoticeFor(r)]);
            case None =>
          }
        }
        i := i + 1;
      }
      assert snapshot[..i] == snapshot;
      assert DistinctIds(start) ==> reminders == Settle(start, now) && outbox == old(outbox) + Notices(start, now) by {
        if DistinctIds(start) {
          CycleSettles(start, now);
        }
      }
    }

    /**
     * handle_remind at clock reading `now`. Without a duration argument the
     * handler raises IndexError. Otherwise it parses the argument: an unknown
     * unit or a zero total is answered with the error; a date past the last
     * one a datetime can hold raises OverflowError; else one reminder dated
     * now + total, with the remaining words as its text, is appended. Only
     * the last case changes the list.
     */
    method HandleRemind(user: User, command: seq<string>, now: int) returns (reply: RemindReply)
      requires 0 <= now <= MaxDate
      modifies this`reminders
      ensures |command| < 2 ==> reminders == old(reminders) && reply == Raised(IndexError)
      ensures |command| >= 2 && DurationOf(Strip(command[1])).Err? ==>
        reminders == old(reminders) && reply == DurationRejected(DurationOf(Strip(command[1])).error)
      ensures |command| >= 2 && DurationOf(Strip(command[1])).Ok? && now + DurationOf(Strip(command[1])).value > MaxDate ==>
        reminders == old(reminders) && reply == Raised(OverflowError)
      ensures |command| >= 2 && DurationOf(Strip(command[1])).Ok? && now + DurationOf(Strip(command[1])).value <= MaxDate ==>
        var at := now + DurationOf(Strip(command[1])).value;
        reply == ReminderSet(at) &&
        reminders == old(reminders) + [NewReminder(idHash, user, Some(Join(command[2..], ' ')), Some(at), now)]
    {
      if |command| < 2 {
        return Raised(IndexError);
      }
      var parsed := ParseDuration(Strip(command[1]));
      reply := Schedule(user, Join(command[2..], ' '), parsed, now);
    }

    /**
     * The rest of handle_remind once the argument is parsed: a parse error is
     * answered as it is; a date past the last one a datetime can hold raises
     * OverflowError; otherwise one reminder dated now + total is appended.
     */
    method Schedule(user: User, text: string, parsed: Result<nat, DurationError>, now: int) returns (reply: RemindReply)
      modifies this`reminders
      ensures parsed.Err? ==> reminders == old(reminders) && reply == DurationRejected(parsed.error)
      ensures parsed.Ok? && now + parsed.value > MaxDate ==> reminders == old(reminders) && reply == Raised(OverflowError)
      ensures parsed.Ok? && now + parsed.value <= MaxDate ==>
        reply == ReminderSet(now + parsed.value) &&
        reminders == old(reminders) + [NewReminder(idHash, user, Some(text), Some(now + parsed.value), now)]
    {
      match parsed {
        case Err(e) =>
          return DurationRejected(e);
        case Ok(total) =>
          var at := now + total;
          if at > MaxDate {
            return Raised(OverflowError);
          }
          reminders := reminders + [NewReminder(idHash, user, Some(text), Some(at), now)];
          return ReminderSet(at);
      }
    }

    /** handle_listOfReminders: the requester's active reminder ids, or "no reminders". */
    method HandleListOfReminders(user: User) returns (reply: ListReply)
      ensures reply == ListReplyFor(reminders, user.id)
    {
      var ids: seq<int> := [];
      var i := 0;
      while i < |reminders|
        invariant 0 <= i <= |reminders|
        invariant ids == UserReminderIds(reminders[..i], user.id)
      {
        assert reminders[..i + 1][..i] == reminders[..i];
        if reminders[i].fromUser.id == user.id && reminders[i].isActive {
          ids := ids + [reminders[i].id];
        }
        i := i + 1;
      }
      assert reminders[..i] == reminders;
      if |ids| > 0 {
        return ReminderIds(ids);
      }
      return NoReminders;
    }
  }

  /** Appending a notice to the outbox extends the notices of the pass so far. */
  lemma AppendAssoc<T>(a: seq<T>, b: seq<T>, c: seq<T>)
    ensures (a + b) + c == a + (b + c)
  {
  }

  /**
   * A successful /remind adds one reminder at the end of the list: active,
   * owned by the requester, dated now plus the parsed duration, carrying the
   * words after the duration joined by spaces; earlier entries are untouched.
   */
  lemma RemindAppendsOne(hash: HashFn, user: User, command: seq<string>, now: int, before: seq<Reminder>, total: nat)
    requires |command| >= 2 && DurationOf(Strip(command[1])) == Ok(total)
    ensures var after := before + [NewReminder(hash, user, Some(Join(command[2..], ' ')), Some(now + total), now)];
      |after| == |before| + 1 && after[..|before|] == before &&
      after[|before|].isActive && after[|before|].fromUser == user &&
      after[|before|].date == now + total && after[|before|].date > now &&
      after[|before|].text == Join(command[2..], ' ') &&
      after[|before|].id == hash(now + total, Join(command[2..], ' '))
  {
  }
}
