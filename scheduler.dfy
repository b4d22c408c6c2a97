/**
 * One pass of the scheduler loop of src/bot.py (update_cycle): snapshot the
 * active reminders in list order, check each against a fixed `now`, and for
 * each expired result look the reminder up by id, clear its active flag and
 * queue a notification to its owner.
 *
 * CycleAsWritten is the pass exactly as the code performs it, lookup by id
 * included; Settle and Notices say declaratively what a pass should do. The
 * two agree whenever ids are distinct (CycleSettles).
 */
module Scheduler {
  import opened Wrappers
  import opened Reminders

  /** A notification sent to a user: the reminder's text and its date. */
  datatype Notice = Notice(to: int, text: string, date: int)

  function NoticeFor(r: Reminder): Notice
  {
    Notice(r.fromUser.id, r.text, r.date)
  }

  /** A reminder fires at `now` when it is still active and its date lies strictly before now. */
  predicate Fires(r: Reminder, now: int)
  {
    r.isActive && Check(r, now).0
  }

  predicate DistinctIds(rs: seq<Reminder>)
  {
    forall i, j :: 0 <= i < j < |rs| ==> rs[i].id != rs[j].id
  }

  /** The snapshot: the active reminders, in list order. */
  function Active(rs: seq<Reminder>): (snap: seq<Reminder>)
    ensures |snap| <= |rs|
    ensures forall r :: r in snap ==> r in rs && r.isActive
  {
    if rs == [] then []
    else
      var last := rs[|rs| - 1];
      assert forall r :: r in rs[..|rs| - 1] ==> r in rs;
      Active(rs[..|rs| - 1]) + (if last.isActive then [last] else [])
  }

  /** Position of the first reminder carrying the id, if any. */
  function IndexOfId(rs: seq<Reminder>, id: int): (k: Option<nat>)
    ensures k.Some? ==> k.value < |rs| && rs[k.value].id == id
    ensures k.Some? ==> forall j :: 0 <= j < k.value ==> rs[j].id != id
    ensures k.None? ==> forall j :: 0 <= j < |rs| ==> rs[j].id != id
  {
    if rs == [] then None
    else if rs[0].id == id then Some(0)
    else match IndexOfId(rs[1..], id)
      case None => None
      case Some(k) => Some(k + 1)
  }

  /**
   * Handling one checked reminder of the snapshot: if its check says expired,
   * the first reminder with the reported id is deactivated and its notice
   * queued. A failed lookup (StopIteration) is caught and changes nothing.
   */
  function Step(rs: seq<Reminder>, sent: seq<Notice>, r: Reminder, now: int): (st: (seq<Reminder>, seq<Notice>))
    ensures |st.0| == |rs|
    ensures |sent| <= |st.1| <= |sent| + 1 && st.1[..|sent|] == sent
    ensures |st.1| == |sent| + 1 ==> Check(r, now).0
  {
    var result := Check(r, now);
    if !result.0 then (rs, sent)
    else match IndexOfId(rs, result.1)
      case None => (rs, sent)
      case Some(k) => (rs[k := rs[k].(isActive := false)], sent + [NoticeFor(rs[k])])
  }

  /** The results of the snapshot consumed in submission order. */
  function Process(rs: seq<Reminder>, snap: seq<Reminder>, now: int): (p: (seq<Reminder>, seq<Notice>))
    ensures |p.0| == |rs|
    ensures |p.1| <= |snap|
  {
    if snap == [] then (rs, [])
    else
      var before := Process(rs, snap[..|snap| - 1], now);
      Step(before.0, before.1, snap[|snap| - 1], now)
  }

  /** One cycle as update_cycle performs it: the new list and the notices sent, in order. */
  function CycleAsWritten(rs: seq<Reminder>, now: int): (c: (seq<Reminder>, seq<Notice>))
    ensures |c.0| == |rs|
    ensures |c.1| <= |Active(rs)|
  {
    Process(rs, Active(rs), now)
  }

  // ---------------------------------------------------------------------------
  // What a cycle should do

  /** Every reminder that fires is deactivated; every other one is left as it is. */
  function Settle(rs: seq<Reminder>, now: int): (out: seq<Reminder>)
    ensures |out| == |rs|
    ensures forall i :: 0 <= i < |out| ==> !Fires(out[i], now)
  {
    seq(|rs|, i requires 0 <= i < |rs| => if Fires(rs[i], now) then rs[i].(isActive := false) else rs[i])
  }

  /** One notice per reminder that fires, in list order. */
  function Notices(rs: seq<Reminder>, now: int): (ns: seq<Notice>)
    ensures |ns| <= |Active(rs)|
  {
    if rs == [] then []
    else Notices(rs[..|rs| - 1], now) + (if Fires(rs[|rs| - 1], now) then [NoticeFor(rs[|rs| - 1])] else [])
  }

  /**
   * After a settling pass, the fired reminders are inactive, every other
   * reminder keeps its flag, and length, users, texts, dates and ids are
   * unchanged.
   */
  lemma SettleEffect(rs: seq<Reminder>, now: int)
    ensures |Settle(rs, now)| == |rs|
    ensures forall i :: 0 <= i < |rs| ==>
      Settle(rs, now)[i].isActive == (rs[i].isActive && !(rs[i].date < now))
    ensures forall i :: 0 <= i < |rs| ==>
      Settle(rs, now)[i] == rs[i].(isActive := Settle(rs, now)[i].isActive)
  {
  }

  // ---------------------------------------------------------------------------
  // Properties of the cycle as written

  /**
   * Whatever the ids, a pass only clears active flags: the list keeps its
   * length, every reminder keeps its user, text, date and id, and no flag goes
   * from false to true.
   */
  lemma {:induction false} ProcessOnlyClearsFlags(rs: seq<Reminder>, snap: seq<Reminder>, now: int)
    ensures |Process(rs, snap, now).0| == |rs|
    ensures forall i :: 0 <= i < |rs| ==>
      Process(rs, snap, now).0[i] == rs[i].(isActive := Process(rs, snap, now).0[i].isActive)
    ensures forall i :: 0 <= i < |rs| ==> Process(rs, snap, now).0[i].isActive ==> rs[i].isActive
  {
    if snap != [] {
      ProcessOnlyClearsFlags(rs, snap[..|snap| - 1], now);
    }
  }

  /**
   * The lookup by id always succeeds: every reminder of the snapshot is still
   * in the list, with the same id, when its result is handled, so the
   * StopIteration branch is never taken.
   */
  lemma LookupAlwaysFinds(rs: seq<Reminder>, now: int, k: nat)
    requires k < |Active(rs)|
    ensures IndexOfId(Process(rs, Active(rs)[..k], now).0, Active(rs)[k].id).Some?
  {
    var snap := Active(rs);
    var state := Process(rs, snap[..k], now).0;
    ProcessOnlyClearsFlags(rs, snap[..k], now);
    var i :| 0 <= i < |rs| && rs[i] == snap[k];
    assert state[i].id == snap[k].id;
  }

  lemma ActiveSnoc(rs: seq<Reminder>, n: nat)
    requires n < |rs|
    ensures Active(rs[..n + 1]) == Active(rs[..n]) + (if rs[n].isActive then [rs[n]] else [])
  {
    assert rs[..n + 1][..n] == rs[..n];
  }

  lemma ProcessSnoc(rs: seq<Reminder>, snap: seq<Reminder>, r: Reminder, now: int)
    ensures Process(rs, snap + [r], now) == Step(Process(rs, snap, now).0, Process(rs, snap, now).1, r, now)
  {
    assert (snap + [r])[..|snap|] == snap;
  }

  /** Handling snapshot entry i after entries 0..i-1 is one more step. */
  lemma ProcessNext(rs: seq<Reminder>, snap: seq<Reminder>, i: nat, now: int)
    requires i < |snap|
    ensures Process(rs, snap[..i + 1], now) == Step(Process(rs, snap[..i], now).0, Process(rs, snap[..i], now).1, snap[i], now)
  {
    assert snap[..i + 1] == snap[..i] + [snap[i]];
    ProcessSnoc(rs, snap[..i], snap[i], now);
  }

  lemma NoticesSnoc(rs: seq<Reminder>, n: nat, now: int)
    requires n < |rs|
    ensures Notices(rs[..n + 1], now) == Notices(rs[..n], now) + (if Fires(rs[n], now) then [NoticeFor(rs[n])] else [])
  {
    assert rs[..n + 1][..n] == rs[..n];
  }

  /** With distinct ids, the lookup of an entry's own id finds that entry. */
  lemma {:induction false} LookupOwnId(rs: seq<Reminder>, m: nat)
    requires DistinctIds(rs) && m < |rs|
    ensures IndexOfId(rs, rs[m].id) == Some(m)
  {
  }

  /** The list part way through a settling pass: the first n entries settled, the rest as they were. */
  function PartlySettled(rs: seq<Reminder>, n: nat, now: int): (state: seq<Reminder>)
    requires n <= |rs|
    ensures |state| == |rs|
    ensures forall i :: 0 <= i < |rs| ==>
      state[i] == if i < n && Fires(rs[i], now) then rs[i].(isActive := false) else rs[i]
    ensures DistinctIds(rs) ==> DistinctIds(state)
  {
    Settle(rs[..n], now) + rs[n..]
  }

  /** Settling skips an inactive entry. */
  lemma SettleSkipsInactive(rs: seq<Reminder>, n: nat, now: int)
    requires n < |rs| && !rs[n].isActive
    ensures PartlySettled(rs, n + 1, now) == PartlySettled(rs, n, now)
  {
    assert PartlySettled(rs, n + 1, now)[n] == rs[n];
  }

  /** Handling an active entry of the snapshot settles that entry and queues its notice if it fires. */
  lemma StepSettlesEntry(rs: seq<Reminder>, n: nat, sent: seq<Notice>, now: int)
    requires DistinctIds(rs) && n < |rs| && rs[n].isActive
    ensures Step(PartlySettled(rs, n, now), sent, rs[n], now)
      == (PartlySettled(rs, n + 1, now), sent + (if Fires(rs[n], now) then [NoticeFor(rs[n])] else []))
  {
    var state := PartlySettled(rs, n, now);
    var after := PartlySettled(rs, n + 1, now);
    assert state[n] == rs[n];
    if rs[n].date < now {
      LookupOwnId(state, n);
      assert state[n := rs[n].(isActive := false)] == after;
    } else {
      assert state == after;
      assert sent + [] == sent;
    }
  }

  /** One more entry of the list: handling it extends the prefix invariant of ProcessPrefix. */
  lemma ProcessPrefixStep(rs: seq<Reminder>, m: nat, now: int)
    requires DistinctIds(rs) && m < |rs|
    requires Process(rs, Active(rs[..m]), now) == (PartlySettled(rs, m, now), Notices(rs[..m], now))
    ensures Process(rs, Active(rs[..m + 1]), now) == (PartlySettled(rs, m + 1, now), Notices(rs[..m + 1], now))
  {
    ActiveSnoc(rs, m);
    NoticesSnoc(rs, m, now);
    var before := Active(rs[..m]);
    var sent := Notices(rs[..m], now);
    if rs[m].isActive {
      calc {
        Process(rs, Active(rs[..m + 1]), now);
        Process(rs, before + [rs[m]], now);
        { ProcessSnoc(rs, before, rs[m], now); }
        Step(PartlySettled(rs, m, now), sent, rs[m], now);
        { StepSettlesEntry(rs, m, sent, now); }
        (PartlySettled(rs, m + 1, now), Notices(rs[..m + 1], now));
      }
    } else {
      SettleSkipsInactive(rs, m, now);
      assert Active(rs[..m + 1]) == before;
      assert Notices(rs[..m + 1], now) == sent + [] == sent;
    }
  }

  /** State after handling the snapshot of the first n reminders, when ids are distinct. */
  lemma {:induction false} ProcessPrefix(rs: seq<Reminder>, n: nat, now: int)
    requires DistinctIds(rs) && n <= |rs|
    ensures Process(rs, Active(rs[..n]), now) == (PartlySettled(rs, n, now), Notices(rs[..n], now))
  {
    if n == 0 {
      assert rs[..0] == [];
      assert PartlySettled(rs, 0, now) == rs;
    } else {
      ProcessPrefix(rs, n - 1, now);
      ProcessPrefixStep(rs, n - 1, now);
    }
  }

  /**
   * With distinct ids, one cycle deactivates exactly the reminders that fire
   * and sends exactly their notices, in list order.
   */
  lemma CycleSettles(rs: seq<Reminder>, now: int)
    requires DistinctIds(rs)
    ensures CycleAsWritten(rs, now) == (Settle(rs, now), Notices(rs, now))
  {
    ProcessPrefix(rs, |rs|, now);
    assert rs[..|rs|] == rs;
    assert PartlySettled(rs, |rs|, now) == Settle(rs, now);
  }

  /** Handling a single expired entry whose id is first found at position 0. */
  lemma StepFirstMatch(rs: seq<Reminder>, r: Reminder, now: int)
    requires rs != [] && r.date < now && rs[0].id == r.id
    ensures Process(rs, [r], now) == (rs[0 := rs[0].(isActive := false)], [NoticeFor(rs[0])])
  {
    ProcessSnoc(rs, [], r, now);
    assert [] + [r] == [r];
    assert Process(rs, [], now) == (rs, []);
    assert [] + [NoticeFor(rs[0])] == [NoticeFor(rs[0])];
  }

  /**
   * Two reminders sharing an id, both expired: the lookup finds the first one
   * both times, so its notice goes out twice and the second stays active.
   */
  lemma CollidingIdsResend(a: Reminder, b: Reminder, now: int)
    requires a.isActive && b.isActive && a.date < now && b.date < now && a.id == b.id
    ensures CycleAsWritten([a, b], now) == ([a.(isActive := false), b], [NoticeFor(a), NoticeFor(a)])
  {
    var c := a.(isActive := false);
    ActivePair(a, b);
    FirstOfPair(a, b, now);
    ProcessSnoc([a, b], [a], b, now);
    assert CycleAsWritten([a, b], now) == Step([c, b], [NoticeFor(a)], b, now);
    StepRefindsFirst(c, b, [NoticeFor(a)], now);
    assert NoticeFor(c) == NoticeFor(a);
    assert [NoticeFor(a)] + [NoticeFor(a)] == [NoticeFor(a), NoticeFor(a)];
  }

  /** Handling the first of two reminders sharing an id deactivates it and sends its notice. */
  lemma FirstOfPair(a: Reminder, b: Reminder, now: int)
    requires a.date < now && a.id == b.id
    ensures Process([a, b], [a], now) == ([a.(isActive := false), b], [NoticeFor(a)])
  {
    StepFirstMatch([a, b], a, now);
    assert [a, b][0 := a.(isActive := false)] == [a.(isActive := false), b];
  }

  lemma ActivePair(a: Reminder, b: Reminder)
    requires a.isActive && b.isActive
    ensures Active([a, b]) == [a] + [b]
  {
    assert [a, b][..1] == [a];
    assert Active([a]) == [a] by { assert [a][..0] == []; }
  }

  /** The lookup for b's id stops at c, which shares it, even when c is already inactive. */
  lemma StepRefindsFirst(c: Reminder, b: Reminder, sent: seq<Notice>, now: int)
    requires b.date < now && c.id == b.id && !c.isActive
    ensures Step([c, b], sent, b, now) == ([c, b], sent + [NoticeFor(c)])
  {
    assert IndexOfId([c, b], b.id) == Some(0);
    assert [c, b][0 := c.(isActive := false)] == [c, b];
  }

  /** ... and every later cycle sends the first one's notice yet again. */
  lemma CollidingIdsRepeat(a: Reminder, b: Reminder, now: int)
    requires !a.isActive && b.isActive && b.date < now && a.id == b.id
    ensures CycleAsWritten([a, b], now) == ([a, b], [NoticeFor(a)])
  {
    assert Active([a, b]) == [b] by {
      assert [a, b][..1] == [a];
      assert Active([a]) == [] by { assert [a][..0] == []; }
    }
    StepFirstMatch([a, b], b, now);
    assert [a, b][0 := a.(isActive := false)] == [a, b];
  }

  // ---------------------------------------------------------------------------
  // Properties of the settling pass

  /** Settling preserves distinct ids, so the next cycle meets the same precondition. */
  lemma SettleKeepsIds(rs: seq<Reminder>, now: int)
    requires DistinctIds(rs)
    ensures DistinctIds(Settle(rs, now))
  {
  }

  /** A reminder that does not fire contributes no notice. */
  lemma {:induction false} NoticesEmpty(rs: seq<Reminder>, now: int)
    requires forall i :: 0 <= i < |rs| ==> !Fires(rs[i], now)
    ensures Notices(rs, now) == []
  {
    if rs != [] {
      NoticesEmpty(rs[..|rs| - 1], now);
    }
  }

  /** A second cycle at the same time changes nothing and sends nothing. */
  lemma SettleIdempotent(rs: seq<Reminder>, now: int)
    ensures Settle(Settle(rs, now), now) == Settle(rs, now)
    ensures Notices(Settle(rs, now), now) == []
  {
    NoticesEmpty(Settle(rs, now), now);
  }

  /** How often reminder i fires over successive settling cycles at the given times. */
  function FireCount(rs: seq<Reminder>, times: seq<int>, i: nat): nat
    requires i < |rs|
    decreases |times|
  {
    if times == [] then 0
    else (if Fires(rs[i], times[0]) then 1 else 0) + FireCount(Settle(rs, times[0]), times[1..], i)
  }

  /**
   * At most once: over any number of cycles, whatever their times, a reminder
   * fires at most once, and an inactive one never fires.
   */
  lemma {:induction false} AtMostOnce(rs: seq<Reminder>, times: seq<int>, i: nat)
    requires i < |rs|
    decreases |times|
    ensures FireCount(rs, times, i) <= 1
    ensures !rs[i].isActive ==> FireCount(rs, times, i) == 0
  {
    if times != [] {
      var next := Settle(rs, times[0]);
      AtMostOnce(next, times[1..], i);
    }
  }

  // ---------------------------------------------------------------------------
  // Repeated passes exactly as the loop performs them

  /**
   * How often reminder i triggers a send over successive passes as written at
   * the given times: in each pass it does so when it is in the snapshot and
   * its check reports it expired.
   */
  function WrittenFireCount(rs: seq<Reminder>, times: seq<int>, i: nat): nat
    requires i < |rs|
    decreases |times|
  {
    if times == [] then 0
    else (if Fires(rs[i], times[0]) then 1 else 0) + WrittenFireCount(CycleAsWritten(rs, times[0]).0, times[1..], i)
  }

  /** With distinct ids, repeated passes as written fire exactly as repeated settling passes do. */
  lemma {:induction false} WrittenMatchesSettled(rs: seq<Reminder>, times: seq<int>, i: nat)
    requires i < |rs| && DistinctIds(rs)
    decreases |times|
    ensures WrittenFireCount(rs, times, i) == FireCount(rs, times, i)
  {
    if times != [] {
      CycleSettles(rs, times[0]);
      SettleKeepsIds(rs, times[0]);
      WrittenMatchesSettled(Settle(rs, times[0]), times[1..], i);
    }
  }

  /**
   * At most once, for the loop as written: with distinct ids, over any number
   * of passes at any times, a reminder triggers a send at most once, and an
   * inactive one never.
   */
  lemma CycleAtMostOnce(rs: seq<Reminder>, times: seq<int>, i: nat)
    requires i < |rs| && DistinctIds(rs)
    ensures WrittenFireCount(rs, times, i) <= 1
    ensures !rs[i].isActive ==> WrittenFireCount(rs, times, i) == 0
  {
    WrittenMatchesSettled(rs, times, i);
    AtMostOnce(rs, times, i);
  }

  /**
   * Without distinct ids the promise fails: the second of two due reminders
   * sharing an id triggers a send in every pass, however many there are.
   */
  lemma {:induction false} CollidingTwinFiresEveryPass(a: Reminder, b: Reminder, times: seq<int>)
    requires b.isActive && a.id == b.id
    requires forall k :: 0 <= k < |times| ==> a.date < times[k] && b.date < times[k]
    decreases |times|
    ensures WrittenFireCount([a, b], times, 1) == |times|
  {
    if times != [] {
      var c := a.(isActive := false);
      if a.isActive {
        CollidingIdsResend(a, b, times[0]);
      } else {
        CollidingIdsRepeat(a, b, times[0]);
        assert c == a;
      }
      assert CycleAsWritten([a, b], times[0]).0 == [c, b];
      CollidingTwinFiresEveryPass(c, b, times[1..]);
    }
  }

  /** With distinct ids, a second pass as written at the same time changes nothing and sends nothing. */
  lemma CycleIdempotent(rs: seq<Reminder>, now: int)
    requires DistinctIds(rs)
    ensures CycleAsWritten(CycleAsWritten(rs, now).0, now) == (CycleAsWritten(rs, now).0, [])
  {
    CycleSettles(rs, now);
    SettleKeepsIds(rs, now);
    CycleSettles(Settle(rs, now), now);
    SettleIdempotent(rs, now);
  }

  /** A reminder appended between cycles is settled independently of the ones before it. */
  lemma SettleAppend(rs: seq<Reminder>, r: Reminder, now: int)
    ensures Settle(rs + [r], now) == Settle(rs, now) + Settle([r], now)
    ensures Notices(rs + [r], now) == Notices(rs, now) + Notices([r], now)
  {
    assert (rs + [r])[..|rs|] == rs;
    assert [r][..0] == [];
  }
}
