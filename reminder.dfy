/**
 * The reminder entity of src/reminder.py: who asked, what to say, when,
 * an identifier derived from the date and the text, and the active flag.
 * Times are integer seconds since 0001-01-01 00:00:00 UTC, the first instant
 * a Python datetime can hold; the identifier hash is a parameter because
 * Python's hash() is randomised per process.
 */
module Reminders {
  import opened Wrappers

  /** The last whole second a Python datetime can hold: 9999-12-31 23:59:59 UTC. */
  const MaxDate: int := 3652058 * 86400 + 86399

  /** The Telegram user who set a reminder; only its id is ever read. */
  datatype User = User(id: int)

  /** The identifier hash of a reminder's date and text, left uninterpreted. */
  type HashFn = (int, string) -> int

  /** The text a reminder gets when the caller supplies none. */
  const DefaultText: string := "Стандартное уведомление"

  datatype Reminder = Reminder(fromUser: User, text: string, date: int, id: int, isActive: bool)

  /**
   * A new reminder: an absent text becomes DefaultText, an absent
   * date becomes the clock reading, and the new reminder is active.
   */
  function NewReminder(hash: HashFn, user: User, text: Option<string>, date: Option<int>, clock: int): (r: Reminder)
    ensures r.isActive
    ensures r.fromUser == user
    ensures text.Some? ==> r.text == text.value
    ensures text.None? ==> r.text == DefaultText
    ensures date.Some? ==> r.date == date.value
    ensures date.None? ==> r.date == clock
    ensures r.id == hash(r.date, r.text)
  {
    var t := if text.Some? then text.value else DefaultText;
    var d := if date.Some? then date.value else clock;
    Reminder(user, t, d, hash(d, t), true)
  }

  /** The check of a reminder: whether it has expired (its date lies strictly before now), and its id. */
  function Check(r: Reminder, now: int): (result: (bool, int))
    ensures result.1 == r.id
    ensures result.0 ==> now > r.date
    ensures !result.0 ==> now <= r.date
  {
    (r.date < now, r.id)
  }

  /** The comparison is strict: at its own date a reminder is not yet expired, one second later it is. */
  lemma CheckAtDate(r: Reminder)
    ensures Check(r, r.date) == (false, r.id)
    ensures Check(r, r.date + 1) == (true, r.id)
  {
  }

  /** Once expired, a reminder stays expired at every later time. */
  lemma ExpiryMonotone(r: Reminder, t1: int, t2: int)
    requires Check(r, t1).0 && t1 <= t2
    ensures Check(r, t2).0
  {
  }

  /** Two reminders built from the same date and text get the same id, whoever asked. */
  lemma SameFactsSameId(hash: HashFn, u1: User, u2: User, text: string, date: int, c1: int, c2: int)
    ensures NewReminder(hash, u1, Some(text), Some(date), c1).id == NewReminder(hash, u2, Some(text), Some(date), c2).id
  {
  }

  /** A supplied empty text is kept verbatim; only an absent text falls back to the default. */
  lemma EmptyTextKept(hash: HashFn, u: User, date: int, clock: int)
    ensures NewReminder(hash, u, Some(""), Some(date), clock).text == ""
    ensures NewReminder(hash, u, None, Some(date), clock).text == DefaultText
  {
  }
}
